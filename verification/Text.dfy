/** Searching, splitting and joining strings. */
module Text {
  import opened Common

  /** `s.find(c, from)`; None is `npos`. */
  function Find(s: string, c: char, from: nat): (r: Option<nat>)
    ensures r.Some? ==> from <= r.value < |s| && s[r.value] == c
    decreases if from < |s| then |s| - from else 0
  {
    if from >= |s| then None
    else if s[from] == c then Some(from)
    else Find(s, c, from + 1)
  }

  /** The position found is the first one. */
  lemma {:induction false} FindIsFirst(s: string, c: char, from: nat)
    ensures var r := Find(s, c, from);
            forall k :: from <= k < (if r.None? then |s| else r.value) ==> s[k] != c
    decreases if from < |s| then |s| - from else 0
  {
    if from < |s| && s[from] != c {
      FindIsFirst(s, c, from + 1);
    }
  }

  /** `swss::tokenize(s, c)`: the pieces between the separators. */
  function Split(s: string, c: char): (parts: seq<string>)
    ensures |parts| > 0
    decreases |s|
  {
    match Find(s, c, 0)
    case None => [s]
    case Some(i) => [s[..i]] + Split(s[i + 1..], c)
  }

  function Join(parts: seq<string>, c: char): string {
    if |parts| == 0 then ""
    else if |parts| == 1 then parts[0]
    else parts[0] + [c] + Join(parts[1..], c)
  }

  /** Every part is followed by the separator, the last one included. */
  function Terminated(parts: seq<string>, c: char): string {
    if parts == [] then "" else Terminated(parts[..|parts| - 1], c) + parts[|parts| - 1] + [c]
  }

  lemma {:induction false} TerminatedFirst(parts: seq<string>, c: char)
    requires parts != []
    ensures Terminated(parts, c) == parts[0] + [c] + Terminated(parts[1..], c)
    decreases |parts|
  {
    var n := |parts| - 1;
    if n == 0 {
      assert parts[..0] == [] == parts[1..];
      assert "" + parts[0] == parts[0];
    } else {
      TerminatedFirst(parts[..n], c);
      assert parts[..n][1..] == parts[1..][..n - 1];
      var middle := Terminated(parts[1..][..n - 1], c);
      assert parts[0] + [c] + middle + parts[n] + [c] == parts[0] + [c] + (middle + parts[n] + [c]);
    }
  }

  lemma {:induction false} JoinOneMore(parts: seq<string>, part: string, c: char)
    requires |parts| > 0
    ensures Join(parts + [part], c) == Join(parts, c) + [c] + part
    decreases |parts|
  {
    assert (parts + [part])[1..] == parts[1..] + [part];
    if |parts| > 1 {
      JoinOneMore(parts[1..], part, c);
    }
  }

  predicate AllFree(parts: seq<string>, c: char) {
    forall k :: 0 <= k < |parts| ==> c !in parts[k]
  }

  lemma FindIs(s: string, c: char, from: nat, at: nat)
    requires from <= at < |s| && s[at] == c && forall k :: from <= k < at ==> s[k] != c
    ensures Find(s, c, from) == Some(at)
  {
    FindIsFirst(s, c, from);
  }

  lemma FindAfterFree(head: string, c: char, tail: string)
    requires c !in head
    ensures Find(head + [c] + tail, c, 0) == Some(|head|)
  {
    var s := head + [c] + tail;
    assert forall k :: 0 <= k < |head| ==> s[k] == head[k];
    FindIs(s, c, 0, |head|);
  }

  lemma {:induction false} SplitJoin(parts: seq<string>, c: char)
    requires |parts| > 0 && AllFree(parts, c)
    ensures Split(Join(parts, c), c) == parts
    decreases |parts|
  {
    if |parts| == 1 {
      assert Find(parts[0], c, 0) == None;
      assert parts == [parts[0]];
    } else {
      var rest := Join(parts[1..], c);
      FindAfterFree(parts[0], c, rest);
      var s := parts[0] + [c] + rest;
      assert s[..|parts[0]|] == parts[0];
      assert s[|parts[0]| + 1..] == rest;
      SplitJoin(parts[1..], c);
      assert parts == [parts[0]] + parts[1..];
    }
  }

  lemma {:induction false} SplitPartsFree(s: string, c: char)
    ensures AllFree(Split(s, c), c)
    decreases |s|
  {
    FindIsFirst(s, c, 0);
    match Find(s, c, 0)
    case None =>
    case Some(i) => SplitPartsFree(s[i + 1..], c);
  }

  predicate OccursAt(s: string, delim: string, k: nat) {
    k + |delim| <= |s| && s[k..k + |delim|] == delim
  }

  /** `s.find(delim, from)` for a separator text; None is `npos`. */
  function FindText(s: string, delim: string, from: nat): (r: Option<nat>)
    requires |delim| > 0
    ensures r.Some? ==> from <= r.value && r.value + |delim| <= |s|
    decreases if from < |s| then |s| - from else 0
  {
    if from + |delim| > |s| then None
    else if OccursAt(s, delim, from) then Some(from)
    else FindText(s, delim, from + 1)
  }

  /** The position found is the first occurrence. */
  lemma {:induction false} FindTextIsFirst(s: string, delim: string, from: nat)
    requires |delim| > 0
    ensures var r := FindText(s, delim, from);
            && (r.Some? ==> OccursAt(s, delim, r.value))
            && forall k: nat :: from <= k && (r.Some? ==> k < r.value) ==> !OccursAt(s, delim, k)
    decreases if from < |s| then |s| - from else 0
  {
    if from + |delim| <= |s| && !OccursAt(s, delim, from) {
      FindTextIsFirst(s, delim, from + 1);
    }
  }

  /** The pieces between the leftmost occurrences of a separator text. */
  function SplitText(s: string, delim: string): seq<string>
    requires |delim| > 0
    decreases |s|
  {
    match FindText(s, delim, 0)
    case None => [s]
    case Some(i) => [s[..i]] + SplitText(s[i + |delim|..], delim)
  }
}

/** Numbers and object ids as text. */
module Numerals {
  import opened Common

  function DigitChar(d: nat): (c: char)
    requires d < 16
    ensures DigitValue(c) == d && IsDigitChar(c)
  {
    if d < 10 then ('0' as int + d) as char else ('a' as int + (d - 10)) as char
  }

  function DigitValue(c: char): nat {
    if '0' <= c <= '9' then c as int - '0' as int
    else if 'a' <= c <= 'f' then c as int - 'a' as int + 10
    else if 'A' <= c <= 'F' then c as int - 'A' as int + 10
    else 16
  }

  /** The characters that printed numbers are made of. */
  predicate IsDigitChar(c: char) { '0' <= c <= '9' || 'a' <= c <= 'f' }

  predicate IsBase(base: nat) { base == 10 || base == 16 }

  predicate AllDigits(s: string, base: nat) {
    forall k :: 0 <= k < |s| ==> DigitValue(s[k]) < base
  }

  predicate Printed(s: string) {
    forall k :: 0 <= k < |s| ==> IsDigitChar(s[k])
  }

  lemma DivideOut(n: nat, base: nat)
    requires IsBase(base) && base <= n
    ensures 0 < n / base < n && n == n / base * base + n % base && 0 <= n % base < base
  {
    if base == 10 {
    } else {
    }
  }

  /** The digits of a number, most significant first, without leading zeros. */
  function Digits(n: nat, base: nat): (s: string)
    requires IsBase(base)
    ensures |s| > 0
  {
    if n < base then [DigitChar(n)]
    else
      DivideOut(n, base);
      Digits(n / base, base) + [DigitChar(n % base)]
  }

  function Value(s: string, base: nat): nat {
    if |s| == 0 then 0 else Value(s[..|s| - 1], base) * base + DigitValue(s[|s| - 1])
  }

  lemma ValueOfLast(high: string, c: char, base: nat)
    ensures Value(high + [c], base) == Value(high, base) * base + DigitValue(c)
  {
    assert (high + [c])[..|high|] == high;
  }

  /** Reading printed digits gives the number back. */
  lemma {:induction false} ValueOfDigits(n: nat, base: nat)
    requires IsBase(base)
    ensures Value(Digits(n, base), base) == n
    decreases n
  {
    if n < base {
      ValueOfLast("", DigitChar(n), base);
      assert "" + [DigitChar(n)] == [DigitChar(n)];
    } else {
      DivideOut(n, base);
      ValueOfDigits(n / base, base);
      ValueOfLast(Digits(n / base, base), DigitChar(n % base), base);
    }
  }

  /** Printed numbers consist of digits of their base. */
  lemma {:induction false} DigitsArePrinted(n: nat, base: nat)
    requires IsBase(base)
    ensures AllDigits(Digits(n, base), base) && Printed(Digits(n, base))
    decreases n
  {
    if n >= base {
      DivideOut(n, base);
      DigitsArePrinted(n / base, base);
    }
  }

  /** `std::to_string`. */
  function ToString(n: int): (s: string)
    ensures |s| > 0
  {
    if n < 0 then "-" + Digits(-n, 10) else Digits(n, 10)
  }

  function Strings(numbers: seq<int>): (parts: seq<string>)
    ensures |parts| == |numbers| && forall i :: 0 <= i < |numbers| ==> parts[i] == ToString(numbers[i])
  {
    seq(|numbers|, i requires 0 <= i < |numbers| => ToString(numbers[i]))
  }

  predicate IsSpace(c: char) { c == ' ' || '\t' <= c <= '\r' }

  function SkipSpace(s: string): string {
    if |s| > 0 && IsSpace(s[0]) then SkipSpace(s[1..]) else s
  }

  function LeadingDigits(s: string): (n: nat)
    ensures n <= |s|
  {
    if |s| > 0 && DigitValue(s[0]) < 10 then 1 + LeadingDigits(s[1..]) else 0
  }

  function InInt(v: int): (r: Result<int>)
    ensures r.Returned? ==> -0x8000_0000 <= r.value < 0x8000_0000
  {
    if -0x8000_0000 <= v < 0x8000_0000 then Returned(v) else Thrown
  }

  /** The number that leads a text, without its sign. */
  function Magnitude(u: string, negative: bool): Result<int> {
    var n := LeadingDigits(u);
    if n == 0 then Thrown
    else InInt(if negative then -(Value(u[..n], 10) as int) else Value(u[..n], 10))
  }

  /** `std::stoi`: throws when there is no number or it does not fit an `int`; ignores what follows it. */
  function Stoi(s: string): (r: Result<int>)
    ensures r.Returned? ==> -0x8000_0000 <= r.value < 0x8000_0000
  {
    var t := SkipSpace(s);
    if |t| > 0 && (t[0] == '-' || t[0] == '+') then Magnitude(t[1..], t[0] == '-')
    else Magnitude(t, false)
  }

  lemma {:induction false} LeadingDigitsOfDigits(s: string)
    requires AllDigits(s, 10)
    ensures LeadingDigits(s) == |s|
    decreases |s|
  {
    if |s| > 0 {
      LeadingDigitsOfDigits(s[1..]);
    }
  }

  lemma MagnitudeOfDigits(n: nat, negative: bool)
    ensures Magnitude(Digits(n, 10), negative) == InInt(if negative then -(n as int) else n)
  {
    var digits := Digits(n, 10);
    ValueOfDigits(n, 10);
    DigitsArePrinted(n, 10);
    LeadingDigitsOfDigits(digits);
    assert digits[..|digits|] == digits;
  }

  /** `stoi` reads back every printed number that fits an `int` and throws for every other one. */
  lemma StoiOfToString(n: int)
    ensures Stoi(ToString(n)) == InInt(n)
  {
    if n < 0 {
      MagnitudeOfDigits(-n, true);
      assert ToString(n)[1..] == Digits(-n, 10);
    } else {
      MagnitudeOfDigits(n, false);
      DigitsArePrinted(n, 10);
      assert IsDigitChar(Digits(n, 10)[0]);
    }
  }

  lemma {:induction false} SpacesAreSkipped(spaces: string, s: string)
    requires (forall k :: 0 <= k < |spaces| ==> IsSpace(spaces[k])) && (|s| > 0 ==> !IsSpace(s[0]))
    ensures SkipSpace(spaces + s) == s
    decreases |spaces|
  {
    if spaces == "" {
      assert spaces + s == s;
    } else {
      assert (spaces + s)[1..] == spaces[1..] + s;
      SpacesAreSkipped(spaces[1..], s);
    }
  }

  lemma {:induction false} LeadingDigitsEnd(digits: string, rest: string)
    requires AllDigits(digits, 10) && (|rest| > 0 ==> DigitValue(rest[0]) >= 10)
    ensures LeadingDigits(digits + rest) == |digits|
    decreases |digits|
  {
    if digits == "" {
      assert digits + rest == rest;
    } else {
      assert (digits + rest)[1..] == digits[1..] + rest;
      LeadingDigitsEnd(digits[1..], rest);
    }
  }

  lemma MagnitudeOfLeading(n: nat, rest: string, negative: bool)
    requires |rest| > 0 ==> DigitValue(rest[0]) >= 10
    ensures Magnitude(Digits(n, 10) + rest, negative) == InInt(if negative then -(n as int) else n)
  {
    var digits := Digits(n, 10);
    ValueOfDigits(n, 10);
    DigitsArePrinted(n, 10);
    LeadingDigitsEnd(digits, rest);
    assert (digits + rest)[..|digits|] == digits;
  }

  /** `stoi` skips white space and a plus sign, and does not look behind the number. */
  lemma StoiReadsALeadingNumber(spaces: string, n: nat, rest: string)
    requires forall k :: 0 <= k < |spaces| ==> IsSpace(spaces[k])
    requires |rest| > 0 ==> DigitValue(rest[0]) >= 10
    ensures Stoi(spaces + (Digits(n, 10) + rest)) == Stoi(spaces + ("+" + (Digits(n, 10) + rest))) == InInt(n)
    ensures Stoi(spaces + ("-" + (Digits(n, 10) + rest))) == InInt(-(n as int))
  {
    var text := Digits(n, 10) + rest;
    DigitsArePrinted(n, 10);
    assert IsDigitChar(text[0]);
    SpacesAreSkipped(spaces, text);
    SpacesAreSkipped(spaces, "+" + text);
    SpacesAreSkipped(spaces, "-" + text);
    assert ("+" + text)[1..] == text && ("-" + text)[1..] == text;
    MagnitudeOfLeading(n, rest, false);
    MagnitudeOfLeading(n, rest, true);
  }

  predicate SignedDigits(s: string) {
    forall k :: 0 <= k < |s| ==> IsDigitChar(s[k]) || s[k] == '-'
  }

  /** Printed numbers contain digits and a sign only. */
  lemma ToStringAlphabet(n: int)
    ensures SignedDigits(ToString(n))
  {
    DigitsArePrinted(if n < 0 then -n else n, 10);
  }

  /** Numbers that print alike are equal. */
  lemma ToStringInjective(m: int, n: int)
    ensures ToString(m) == ToString(n) ==> m == n
  {
    var a, b := if m < 0 then -m else m, if n < 0 then -n else n;
    ValueOfDigits(a, 10);
    ValueOfDigits(b, 10);
    DigitsArePrinted(a, 10);
    DigitsArePrinted(b, 10);
    assert IsDigitChar(Digits(a, 10)[0]) && IsDigitChar(Digits(b, 10)[0]);
    assert m < 0 ==> ToString(m)[0] == '-' && ToString(m)[1..] == Digits(a, 10);
    assert n < 0 ==> ToString(n)[0] == '-' && ToString(n)[1..] == Digits(b, 10);
  }

  const OID_PREFIX: string := "oid:0x"

  /** `sai_serialize_object_id`. */
  function SerializeOid(oid: Oid): string { OID_PREFIX + Digits(oid, 16) }

  /** `sai_deserialize_object_id`. */
  function DeserializeOid(s: string): Result<Oid> {
    if OID_PREFIX <= s then
      var digits := s[|OID_PREFIX|..];
      if |digits| > 0 && AllDigits(digits, 16) && Value(digits, 16) < TWO_64 then Returned(Value(digits, 16))
      else Thrown
    else Thrown
  }

  /** Every id survives printing and parsing. */
  lemma OidRoundTrip(oid: Oid)
    ensures DeserializeOid(SerializeOid(oid)) == Returned(oid)
  {
    ValueOfDigits(oid, 16);
    DigitsArePrinted(oid, 16);
    assert SerializeOid(oid)[|OID_PREFIX|..] == Digits(oid, 16);
  }

  /** Text without the prefix, without digits or with something that is no hexadecimal digit is no id. */
  lemma MalformedIdsThrow(s: string, k: nat)
    requires !(OID_PREFIX <= s) || |s| == |OID_PREFIX| || (|OID_PREFIX| <= k < |s| && DigitValue(s[k]) == 16)
    ensures DeserializeOid(s) == Thrown
  {
    if OID_PREFIX <= s && |OID_PREFIX| <= k < |s| {
      assert s[|OID_PREFIX|..][k - |OID_PREFIX|] == s[k];
    }
  }

  /** How numbers and ids look: decimal with a sign, and lower-case hexadecimal behind a prefix. */
  lemma PrintedText()
    ensures ToString(0) == "0" && ToString(-12) == "-12" && ToString(907) == "907"
    ensures SerializeOid(0xAB1) == "oid:0xab1"
  {
    assert Digits(12, 10) == Digits(1, 10) + [DigitChar(2)] == "12";
    assert Digits(90, 10) == Digits(9, 10) + [DigitChar(0)] == "90";
    assert Digits(907, 10) == Digits(90, 10) + [DigitChar(7)];
    assert Digits(0xAB, 16) == Digits(0xA, 16) + [DigitChar(0xB)] == "ab";
    assert Digits(0xAB1, 16) == Digits(0xAB, 16) + [DigitChar(1)];
  }

  /** A printed id holds no separator of any message or record format. */
  lemma OidAlphabet(oid: Oid)
    ensures '|' !in SerializeOid(oid) && '=' !in SerializeOid(oid) && ';' !in SerializeOid(oid)
  {
    DigitsArePrinted(oid, 16);
    var s := SerializeOid(oid);
    forall k | 0 <= k < |s| ensures s[k] != '|' && s[k] != '=' && s[k] != ';' {
      if k >= |OID_PREFIX| {
        assert s[k] == Digits(oid, 16)[k - |OID_PREFIX|];
      }
    }
  }
}
