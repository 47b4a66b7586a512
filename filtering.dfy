/** The challenge of the filtering chapter: collecting the digits of a phone number and dialing a contact. */
module TopicFiltering {
  import opened Optional
  import opened Decimal

  const PhoneDigits: nat := 10

  const Contacts: map<string, string> := map[
    "603-555-1212" := "Florent",
    "212-555-1212" := "Shai",
    "408-555-1212" := "Marin",
    "617-555-1212" := "Scott"
  ]

  predicate IsDigitValue(x: int) {
    0 <= x <= 9
  }

  predicate AllDigitValues(s: seq<int>) {
    forall i :: 0 <= i < |s| ==> IsDigitValue(s[i])
  }

  // ----- phoneNumber(from:) -----

  /** `inputs.map(String.init).joined()` */
  function Joined(inputs: seq<int>): string {
    if inputs == [] then "" else IntToString(inputs[0]) + Joined(inputs[1..])
  }

  /** The phone layout: a dash after the third and after the sixth character of `digits`. */
  function Formatted(digits: string): (phone: string)
    requires |digits| >= 6
    ensures |phone| == |digits| + 2 && phone[3] == '-' && phone[7] == '-'
    ensures phone[..3] + phone[4..7] + phone[8..] == digits
  {
    var phone := digits[..3] + "-" + digits[3..6] + "-" + digits[6..];
    assert phone[..3] == digits[..3] && phone[4..7] == digits[3..6] && phone[8..] == digits[6..];
    assert digits == digits[..3] + digits[3..6] + digits[6..];
    phone
  }

  /**
    `phoneNumber(from:)`: the joined digits with a '-' inserted at offset 3
    and then at offset 7. Swift traps when an offset passes the end, hence
    the requirement of at least six characters.
  */
  method PhoneNumber(inputs: seq<int>) returns (phone: string)
    requires |Joined(inputs)| >= 6
    ensures phone == Formatted(Joined(inputs))
  {
    phone := Joined(inputs);
    ghost var digits := phone;
    phone := phone[..3] + "-" + phone[3..];
    SecondDash(digits, phone);
    phone := phone[..7] + "-" + phone[7..];
  }

  lemma SecondDash(digits: string, once: string)
    requires |digits| >= 6 && once == digits[..3] + "-" + digits[3..]
    ensures once[..7] + "-" + once[7..] == Formatted(digits)
  {
    assert once[..7] == digits[..3] + "-" + digits[3..6];
    assert once[7..] == digits[6..];
  }

  /** Single digits join to one character each, in input order. */
  lemma {:induction false} JoinedDigits(inputs: seq<int>)
    requires AllDigitValues(inputs)
    ensures |Joined(inputs)| == |inputs|
    ensures forall k :: 0 <= k < |inputs| ==> Joined(inputs)[k] == DigitChar(inputs[k])
    decreases |inputs|
  {
    if inputs != [] {
      SingleDigit(inputs[0]);
      JoinedDigits(inputs[1..]);
    }
  }

  /** Ten single digits give a twelve-character number with dashes at indices 3 and 7. */
  lemma TenDigitPhone(inputs: seq<int>)
    requires |inputs| == PhoneDigits && AllDigitValues(inputs)
    ensures |Joined(inputs)| == 10
    ensures var p := Formatted(Joined(inputs)); |p| == 12 && p[3] == '-' && p[7] == '-'
  {
    JoinedDigits(inputs);
  }

  // ----- the input pipeline -----

  /** `skipWhile { $0 == 0 }` */
  function SkipLeadingZeros(inputs: seq<int>): (r: seq<int>)
    ensures r == [] || r[0] != 0
    ensures |r| <= |inputs| && r == inputs[|inputs| - |r|..]
    ensures forall k :: 0 <= k < |inputs| - |r| ==> inputs[k] == 0
  {
    if inputs != [] && inputs[0] == 0 then SkipLeadingZeros(inputs[1..]) else inputs
  }

  /** `filter { 0...9 ~= $0 }` */
  function KeepDigits(s: seq<int>): (r: seq<int>)
    ensures AllDigitValues(r) && |r| <= |s|
  {
    if s == [] then []
    else (if IsDigitValue(s[0]) then [s[0]] else []) + KeepDigits(s[1..])
  }

  /** Each value from 0 to 9 passes the filter as often as it is sent; no other value passes. */
  lemma {:induction false} KeepDigitsCounts(s: seq<int>)
    ensures forall x :: multiset(KeepDigits(s))[x] == if IsDigitValue(x) then multiset(s)[x] else 0
    decreases |s|
  {
    if s != [] {
      KeepDigitsCounts(s[1..]);
      assert s == [s[0]] + s[1..];
    }
  }

  /**
    `take(10).toArray()`: the single array is emitted once ten values have
    passed (the subject itself never completes), and nothing before.
  */
  function CollectDigits(inputs: seq<int>): (r: Option<seq<int>>)
    ensures r.Some? ==> |r.value| == PhoneDigits && AllDigitValues(r.value)
  {
    var digits := KeepDigits(SkipLeadingZeros(inputs));
    if |digits| >= PhoneDigits then Some(digits[..PhoneDigits]) else None
  }

  lemma {:induction false} KeepDigitsAppend(a: seq<int>, b: seq<int>)
    ensures KeepDigits(a + b) == KeepDigits(a) + KeepDigits(b)
    decreases |a|
  {
    if a == [] {
      assert a + b == b;
    } else {
      var head := if IsDigitValue(a[0]) then [a[0]] else [];
      assert (a + b)[0] == a[0];
      assert (a + b)[1..] == a[1..] + b;
      assert KeepDigits(a + b) == head + KeepDigits(a[1..] + b);
      KeepDigitsAppend(a[1..], b);
      assert KeepDigits(a) == head + KeepDigits(a[1..]);
      assert head + (KeepDigits(a[1..]) + KeepDigits(b)) == (head + KeepDigits(a[1..])) + KeepDigits(b);
    }
  }

  lemma {:induction false} KeepDigitsOfDigits(s: seq<int>)
    requires AllDigitValues(s)
    ensures KeepDigits(s) == s
    decreases |s|
  {
    if s != [] {
      KeepDigitsOfDigits(s[1..]);
    }
  }

  lemma {:induction false} SkipLeadingZerosAppend(a: seq<int>, b: seq<int>)
    requires SkipLeadingZeros(a) != []
    ensures SkipLeadingZeros(a + b) == SkipLeadingZeros(a) + b
    decreases |a|
  {
    assert (a + b)[0] == a[0];
    if a[0] == 0 {
      assert (a + b)[1..] == a[1..] + b;
      SkipLeadingZerosAppend(a[1..], b);
    } else {
      assert SkipLeadingZeros(a) == a;
    }
  }

  /** Once ten digits have been collected, whatever is sent afterwards is ignored. */
  lemma CollectIgnoresLaterInputs(a: seq<int>, b: seq<int>)
    requires CollectDigits(a).Some?
    ensures CollectDigits(a + b) == CollectDigits(a)
  {
    var s := SkipLeadingZeros(a);
    assert s != [];
    SkipLeadingZerosAppend(a, b);
    KeepDigitsAppend(s, b);
    var d := KeepDigits(s);
    assert (d + KeepDigits(b))[..PhoneDigits] == d[..PhoneDigits];
  }

  /** Leading zeros are dropped before anything else happens. */
  lemma LeadingZeroDropped(a: seq<int>)
    ensures CollectDigits([0] + a) == CollectDigits(a)
  {
    assert ([0] + a)[1..] == a;
  }

  predicate AllZeros(zs: seq<int>) {
    forall k :: 0 <= k < |zs| ==> zs[k] == 0
  }

  /** `skipWhile` drops exactly the leading zeros: what follows them, starting with a non-zero value, is kept whole. */
  lemma {:induction false} SkipExactlyLeadingZeros(zs: seq<int>, s: seq<int>)
    requires AllZeros(zs)
    requires s == [] || s[0] != 0
    ensures SkipLeadingZeros(zs + s) == s
    decreases |zs|
  {
    if zs == [] {
      assert zs + s == s;
    } else {
      assert (zs + s)[0] == 0;
      assert (zs + s)[1..] == zs[1..] + s;
      SkipExactlyLeadingZeros(zs[1..], s);
    }
  }

  /** Skipping zeros first never lets more values through the filter. */
  lemma {:induction false} SkipThenKeepShorter(s: seq<int>)
    ensures |KeepDigits(SkipLeadingZeros(s))| <= |KeepDigits(s)|
    decreases |s|
  {
    if s != [] && s[0] == 0 {
      SkipThenKeepShorter(s[1..]);
      assert KeepDigits(s) == [0] + KeepDigits(s[1..]);
    }
  }

  /** Fewer than ten values in 0...9 in the whole input: `take(10)` never completes, so nothing is emitted. */
  lemma FewDigitsEmitNothing(inputs: seq<int>)
    requires |KeepDigits(inputs)| < PhoneDigits
    ensures CollectDigits(inputs) == None
  {
    SkipThenKeepShorter(inputs);
  }

  /**
    Any run of leading zeros followed by ten digits, the first not zero:
    those ten digits are the array emitted, whatever comes after.
  */
  lemma CollectAfterLeadingZeros(zs: seq<int>, ten: seq<int>, rest: seq<int>)
    requires AllZeros(zs)
    requires |ten| == PhoneDigits && AllDigitValues(ten) && ten[0] != 0
    ensures CollectDigits(zs + ten + rest) == Some(ten)
  {
    var tail := ten + rest;
    assert tail[0] == ten[0];
    assert zs + ten + rest == zs + tail;
    SkipExactlyLeadingZeros(zs, tail);
    KeepDigitsAppend(ten, rest);
    KeepDigitsOfDigits(ten);
    var digits := ten + KeepDigits(rest);
    assert |digits| >= PhoneDigits && digits[..PhoneDigits] == ten;
  }

  // ----- the lookup -----

  datatype DialResult = Dialing(contact: string, phone: string) | ContactNotFound

  /** The formatted number of ten collected digits. */
  function PhoneOf(digits: seq<int>): (phone: string)
    requires |digits| == PhoneDigits && AllDigitValues(digits)
    ensures |phone| == 12 && phone[3] == '-' && phone[7] == '-'
    ensures phone[..3] + phone[4..7] + phone[8..] == Joined(digits)
  {
    TenDigitPhone(digits);
    Formatted(Joined(digits))
  }

  /** The subscriber: once the digits are collected, look the number up in `contacts`. */
  function Dial(inputs: seq<int>): (r: Option<DialResult>)
    ensures r.Some? <==> CollectDigits(inputs).Some?
    ensures r.Some? ==> (r.value.Dialing? <==> PhoneOf(CollectDigits(inputs).value) in Contacts)
    ensures r.Some? && r.value.Dialing? ==>
      r.value.phone == PhoneOf(CollectDigits(inputs).value) && r.value.contact == Contacts[r.value.phone]
  {
    match CollectDigits(inputs)
    case None => None
    case Some(digits) =>
      var phone := PhoneOf(digits);
      if phone in Contacts then Some(Dialing(Contacts[phone], phone)) else Some(ContactNotFound)
  }

  /** A leading zero and the out-of-range 603 are dropped; ten digits after them are collected. */
  lemma CollectAfterZeroAndOutOfRange(ten: seq<int>, rest: seq<int>)
    requires |ten| == PhoneDigits && AllDigitValues(ten)
    ensures CollectDigits([0, 603] + ten + rest) == Some(ten)
  {
    var inputs := [0, 603] + ten + rest;
    var tail := ten + rest;
    assert inputs[0] == 0 && inputs[1..] == [603] + tail;
    assert ([603] + tail)[0] == 603;
    assert SkipLeadingZeros([603] + tail) == [603] + tail;
    assert SkipLeadingZeros(inputs) == [603] + tail;
    KeepDigitsAppend([603], tail);
    assert KeepDigits([603]) == [];
    KeepDigitsAppend(ten, rest);
    KeepDigitsOfDigits(ten);
    var digits := ten + KeepDigits(rest);
    assert KeepDigits(SkipLeadingZeros(inputs)) == digits;
    assert |digits| >= PhoneDigits && digits[..PhoneDigits] == ten;
  }

  /** The number dialed for ten digits, character by character. */
  lemma PhoneOfDigits(ten: seq<int>)
    requires |ten| == PhoneDigits && AllDigitValues(ten)
    ensures PhoneOf(ten) ==
      [DigitChar(ten[0]), DigitChar(ten[1]), DigitChar(ten[2]), '-',
       DigitChar(ten[3]), DigitChar(ten[4]), DigitChar(ten[5]), '-',
       DigitChar(ten[6]), DigitChar(ten[7]), DigitChar(ten[8]), DigitChar(ten[9])]
  {
    JoinedDigits(ten);
  }

  /**
    The challenge types 0, 603, 2, 1, 2 and the digits of "5551212": that
    dials Shai at 212-555-1212, whatever is sent afterwards (the challenge
    sends a 9).
  */
  lemma ChallengeDialsShai(rest: seq<int>)
    ensures Dial([0, 603, 2, 1, 2, 5, 5, 5, 1, 2, 1, 2] + rest) == Some(Dialing("Shai", "212-555-1212"))
  {
    var inputs := [0, 603, 2, 1, 2, 5, 5, 5, 1, 2, 1, 2] + rest;
    var ten := inputs[2..12];
    assert inputs == [0, 603] + ten + rest;
    CollectAfterZeroAndOutOfRange(ten, rest);
    PhoneOfDigits(ten);
    assert PhoneOf(ten) == "212-555-1212";
  }

  /** With 7 typed in place of the second 2, no contact matches. */
  lemma SevenNotFound(rest: seq<int>)
    ensures Dial([0, 603, 2, 1, 7, 5, 5, 5, 1, 2, 1, 2] + rest) == Some(ContactNotFound)
  {
    var inputs := [0, 603, 2, 1, 7, 5, 5, 5, 1, 2, 1, 2] + rest;
    var ten := inputs[2..12];
    assert inputs == [0, 603] + ten + rest;
    CollectAfterZeroAndOutOfRange(ten, rest);
    PhoneOfDigits(ten);
    assert PhoneOf(ten) == "217-555-1212";
  }
}
