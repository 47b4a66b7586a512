/**
  `String.titleCase()`: a space before every capital letter, surrounding
  whitespace trimmed, then Foundation's `capitalized`. Letters are ASCII
  only, and words are delimited by whitespace as for `capitalized`.
*/
module StringExtensions {

  predicate IsUpper(c: char) { 'A' <= c <= 'Z' }

  predicate IsLower(c: char) { 'a' <= c <= 'z' }

  /** `.whitespacesAndNewlines`, restricted to ASCII. */
  predicate IsSpace(c: char) {
    c == ' ' || c == '\t' || c == '\n' || c == '\r' || c == '\U{B}' || c == '\U{C}'
  }

  function ToUpper(c: char): (u: char)
    ensures IsSpace(u) <==> IsSpace(c)
    ensures !IsLower(u)
  {
    if IsLower(c) then (c as int - 32) as char else c
  }

  function ToLower(c: char): (l: char)
    ensures IsSpace(l) <==> IsSpace(c)
    ensures !IsUpper(l)
  {
    if IsUpper(c) then (c as int + 32) as char else c
  }

  lemma LowerOfCase(c: char)
    ensures ToLower(ToUpper(c)) == ToLower(c) && ToLower(ToLower(c)) == ToLower(c)
  {
  }

  /** The string with every character lowered. */
  function Lower(s: string): (r: string)
    ensures |r| == |s| && forall i :: 0 <= i < |s| ==> r[i] == ToLower(s[i])
  {
    if s == [] then [] else [ToLower(s[0])] + Lower(s[1..])
  }

  /** The string with its whitespace deleted. */
  function Unspaced(s: string): (r: string)
    ensures |r| <= |s| && forall i :: 0 <= i < |r| ==> !IsSpace(r[i])
  {
    if s == [] then [] else (if IsSpace(s[0]) then [] else [s[0]]) + Unspaced(s[1..])
  }

  lemma {:induction false} UnspacedAppend(a: string, b: string)
    ensures Unspaced(a + b) == Unspaced(a) + Unspaced(b)
    decreases |a|
  {
    if a == [] {
      assert a + b == b;
    } else {
      var head := if IsSpace(a[0]) then [] else [a[0]];
      assert (a + b)[0] == a[0];
      assert (a + b)[1..] == a[1..] + b;
      UnspacedAppend(a[1..], b);
      assert head + (Unspaced(a[1..]) + Unspaced(b)) == (head + Unspaced(a[1..])) + Unspaced(b);
    }
  }

  lemma {:induction false} UnspacedOfSpaces(s: string)
    requires forall i :: 0 <= i < |s| ==> IsSpace(s[i])
    ensures Unspaced(s) == []
    decreases |s|
  {
    if s != [] {
      UnspacedOfSpaces(s[1..]);
    }
  }

  // ----- replacingOccurrences(of: "([A-Z])", with: " $1", options: .regularExpression) -----

  function InsertSpaces(s: string): (r: string)
    ensures |r| >= |s|
    ensures forall i :: 0 <= i < |r| && IsUpper(r[i]) ==> i > 0 && r[i - 1] == ' '
  {
    if s == [] then []
    else
      var rest := InsertSpaces(s[1..]);
      var head := if IsUpper(s[0]) then [' ', s[0]] else [s[0]];
      assert forall i :: |head| <= i < |head + rest| ==> (head + rest)[i] == rest[i - |head|];
      head + rest
  }

  /** The number of capital letters of `s`. */
  function CountUpper(s: string): nat {
    if s == [] then 0 else (if IsUpper(s[0]) then 1 else 0) + CountUpper(s[1..])
  }

  /** Each capital letter gets exactly one extra character in front of it, a space, and nothing else changes. */
  lemma {:induction false} InsertSpacesCount(s: string)
    ensures |InsertSpaces(s)| == |s| + CountUpper(s)
    ensures Unspaced(InsertSpaces(s)) == Unspaced(s)
    decreases |s|
  {
    if s != [] {
      InsertSpacesCount(s[1..]);
      var head := if IsUpper(s[0]) then [' ', s[0]] else [s[0]];
      UnspacedAppend(head, InsertSpaces(s[1..]));
      UnspacedAppend([s[0]], s[1..]);
      assert [s[0]] + s[1..] == s;
      UnspacedAppend([' '], [s[0]]);
      assert [' '] + [s[0]] == [' ', s[0]];
    }
  }

  // ----- trimmingCharacters(in: .whitespacesAndNewlines) -----

  /** The number of whitespace characters `s` starts with. */
  function LeadingSpaces(s: string): (n: nat)
    ensures n <= |s|
    ensures forall k :: 0 <= k < n ==> IsSpace(s[k])
    ensures n == |s| || !IsSpace(s[n])
  {
    if s == [] || !IsSpace(s[0]) then 0 else 1 + LeadingSpaces(s[1..])
  }

  /** The number of whitespace characters `s` ends with. */
  function TrailingSpaces(s: string): (n: nat)
    ensures n <= |s|
    ensures forall k :: |s| - n <= k < |s| ==> IsSpace(s[k])
    ensures n == |s| || !IsSpace(s[|s| - 1 - n])
  {
    if s == [] || !IsSpace(s[|s| - 1]) then 0 else 1 + TrailingSpaces(s[..|s| - 1])
  }

  /** A slice of `s` that neither starts nor ends with whitespace and leaves out only whitespace. */
  function Trim(s: string): (r: string)
    ensures r == [] || (!IsSpace(r[0]) && !IsSpace(r[|r| - 1]))
    ensures LeadingSpaces(s) + |r| <= |s| && r == s[LeadingSpaces(s)..LeadingSpaces(s) + |r|]
    ensures forall k :: 0 <= k < |s| && !(LeadingSpaces(s) <= k < LeadingSpaces(s) + |r|) ==> IsSpace(s[k])
  {
    var i := LeadingSpaces(s);
    if i == |s| then [] else s[i..|s| - TrailingSpaces(s)]
  }

  /** Trimming deletes only whitespace. */
  lemma TrimKeepsText(s: string)
    ensures Unspaced(Trim(s)) == Unspaced(s)
  {
    var r := Trim(s);
    var i := LeadingSpaces(s);
    var j := i + |r|;
    var pre, mid, post := s[..i], s[..j], s[j..];
    assert r == s[i..j];
    assert mid == pre + r;
    assert s == mid + post;
    forall k | 0 <= k < |pre| ensures IsSpace(pre[k]) {
      assert pre[k] == s[k];
    }
    forall k | 0 <= k < |post| ensures IsSpace(post[k]) {
      assert post[k] == s[j + k];
    }
    UnspacedAppend(mid, post);
    UnspacedAppend(pre, r);
    UnspacedOfSpaces(pre);
    UnspacedOfSpaces(post);
  }

  // ----- capitalized -----

  /** Whether the character at `i` begins a word; `atStart` tells whether a word may begin before `s`. */
  predicate BeginsWord(s: string, atStart: bool, i: nat)
    requires i < |s|
  {
    if i == 0 then atStart else IsSpace(s[i - 1])
  }

  /** The character `capitalized` puts at index `i`. */
  function CapitalizedChar(s: string, atStart: bool, i: nat): char
    requires i < |s|
  {
    if IsSpace(s[i]) then s[i]
    else if BeginsWord(s, atStart, i) then ToUpper(s[i])
    else ToLower(s[i])
  }

  /** One pass over the string, remembering whether the previous character was whitespace. */
  function CapitalizeFrom(s: string, atStart: bool): (r: string)
    ensures |r| == |s|
    ensures forall i :: 0 <= i < |s| ==> r[i] == CapitalizedChar(s, atStart, i)
  {
    if s == [] then []
    else
      var c := if IsSpace(s[0]) then s[0] else if atStart then ToUpper(s[0]) else ToLower(s[0]);
      var rest := CapitalizeFrom(s[1..], IsSpace(s[0]));
      assert forall i :: 1 <= i < |s| ==> CapitalizedChar(s, atStart, i) == CapitalizedChar(s[1..], IsSpace(s[0]), i - 1);
      [c] + rest
  }

  function Capitalize(s: string): (r: string)
    ensures |r| == |s|
    ensures forall i :: 0 <= i < |s| ==> r[i] == CapitalizedChar(s, true, i)
  {
    CapitalizeFrom(s, true)
  }

  /** `capitalized` changes only the case of letters. */
  lemma {:induction false} CapitalizeKeepsText(s: string)
    ensures Lower(Unspaced(Capitalize(s))) == Lower(Unspaced(s))
  {
    var t := Capitalize(s);
    CaseOnly(s, t);
  }

  lemma {:induction false} CaseOnly(s: string, t: string)
    requires |s| == |t|
    requires forall i :: 0 <= i < |s| ==> (IsSpace(t[i]) <==> IsSpace(s[i])) && ToLower(t[i]) == ToLower(s[i])
    ensures Lower(Unspaced(t)) == Lower(Unspaced(s))
    decreases |s|
  {
    if s != [] {
      CaseOnly(s[1..], t[1..]);
      LowerAppend(if IsSpace(s[0]) then [] else [s[0]], Unspaced(s[1..]));
      LowerAppend(if IsSpace(t[0]) then [] else [t[0]], Unspaced(t[1..]));
    }
  }

  lemma {:induction false} LowerAppend(a: string, b: string)
    ensures Lower(a + b) == Lower(a) + Lower(b)
  {
  }

  // ----- titleCase() -----

  function TitleCase(s: string): string {
    Capitalize(Trim(InsertSpaces(s)))
  }

  /** The title neither starts nor ends with whitespace. */
  lemma TitleCaseTrimmed(s: string)
    ensures var t := TitleCase(s); t == [] || (!IsSpace(t[0]) && !IsSpace(t[|t| - 1]))
  {
    var u := Trim(InsertSpaces(s));
    var t := Capitalize(u);
    if t != [] {
      assert t[0] == CapitalizedChar(u, true, 0);
      assert t[|t| - 1] == CapitalizedChar(u, true, |u| - 1);
    }
  }

  /** Each word of the title starts with a non-lowercase character and has no capitals after it. */
  lemma TitleCaseWords(s: string)
    ensures var t := TitleCase(s);
      forall i :: 0 <= i < |t| ==>
        (i == 0 || IsSpace(t[i - 1]) ==> !IsLower(t[i])) &&
        (i > 0 && !IsSpace(t[i - 1]) ==> !IsUpper(t[i]))
  {
    var u := Trim(InsertSpaces(s));
    var t := Capitalize(u);
    forall i | 0 <= i < |t|
      ensures (i == 0 || IsSpace(t[i - 1]) ==> !IsLower(t[i]))
      ensures (i > 0 && !IsSpace(t[i - 1]) ==> !IsUpper(t[i]))
    {
      assert t[i] == CapitalizedChar(u, true, i);
      if i > 0 {
        assert t[i - 1] == CapitalizedChar(u, true, i - 1);
        assert IsSpace(t[i - 1]) <==> IsSpace(u[i - 1]);
      }
    }
  }

  /** Deleting the whitespace of the title and lowering it gives the input, likewise treated. */
  lemma TitleCaseKeepsText(s: string)
    ensures Lower(Unspaced(TitleCase(s))) == Lower(Unspaced(s))
  {
    var spaced := InsertSpaces(s);
    InsertSpacesCount(s);
    TrimKeepsText(spaced);
    CapitalizeKeepsText(Trim(spaced));
  }

  /** The title of the subjects topic. */
  lemma SubjectsTitle(s: string)
    requires s == "TopicSubjects"
    ensures TitleCase(s) == "Topic Subjects"
  {
    var t1, t2, t3, t4 := "T", "opic", "S", "ubjects";
    SubjectsSpaced(t1, t2, t3, t4);
    SubjectsJoined(s, t1, t2, t3, t4);
    var spaced := " Topic Subjects";
    SubjectsTrimmed(spaced, spaced[1..]);
    SubjectsCapitalized(spaced[1..]);
  }

  lemma SubjectsJoined(s: string, t1: string, t2: string, t3: string, t4: string)
    requires s == "TopicSubjects" && t1 == "T" && t2 == "opic" && t3 == "S" && t4 == "ubjects"
    ensures s == t1 + t2 + t3 + t4 && " Topic Subjects" == " T" + t2 + " S" + t4
  {
  }

  lemma SubjectsSpaced(t1: string, t2: string, t3: string, t4: string)
    requires t1 == "T" && t2 == "opic" && t3 == "S" && t4 == "ubjects"
    ensures InsertSpaces(t1 + t2 + t3 + t4) == " T" + t2 + " S" + t4
  {
    InsertSpacesLower(t2);
    InsertSpacesLower(t4);
    assert InsertSpaces(t1) == " T" && InsertSpaces(t3) == " S";
    InsertSpacesAppend(t1 + t2 + t3, t4);
    InsertSpacesAppend(t1 + t2, t3);
    InsertSpacesAppend(t1, t2);
  }

  lemma SubjectsTrimmed(spaced: string, trimmed: string)
    requires spaced == " Topic Subjects" && trimmed == spaced[1..]
    ensures Trim(spaced) == trimmed
  {
    assert LeadingSpaces(spaced[1..]) == 0;
    assert LeadingSpaces(spaced) == 1;
    assert TrailingSpaces(spaced) == 0;
  }

  lemma SubjectsCapitalized(trimmed: string)
    requires trimmed == "Topic Subjects"
    ensures Capitalize(trimmed) == trimmed
  {
    var t := Capitalize(trimmed);
    forall i | 0 <= i < |t|
      ensures t[i] == trimmed[i]
    {
      assert t[i] == CapitalizedChar(trimmed, true, i);
    }
  }

  lemma {:induction false} InsertSpacesAppend(a: string, b: string)
    ensures InsertSpaces(a + b) == InsertSpaces(a) + InsertSpaces(b)
    decreases |a|
  {
    if a == [] {
      assert a + b == b;
    } else {
      assert (a + b)[0] == a[0];
      assert (a + b)[1..] == a[1..] + b;
      InsertSpacesAppend(a[1..], b);
    }
  }

  lemma {:induction false} InsertSpacesLower(s: string)
    requires forall i :: 0 <= i < |s| ==> !IsUpper(s[i])
    ensures InsertSpaces(s) == s
    decreases |s|
  {
    if s != [] {
      InsertSpacesLower(s[1..]);
    }
  }
}
