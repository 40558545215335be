/** Types shared by every component: C++ outcomes, fixed-width integers and SAI statuses. */
module Common {

  /** What a C++ call does: it returns a value, or it leaves through an exception. */
  datatype Result<+T> = Returned(value: T) | Thrown

  datatype Option<+T> = None | Some(value: T)

  const TWO_31: nat := 0x8000_0000
  const TWO_32: nat := 0x1_0000_0000
  const TWO_63: nat := 0x8000_0000_0000_0000
  const TWO_64: nat := 0x1_0000_0000_0000_0000

  /** The conversion to `uint32_t`. */
  function ToUint32(v: int): (r: nat)
    ensures r < TWO_32
    ensures 0 <= v < TWO_32 ==> r == v
  {
    v % 0x1_0000_0000
  }

  type Int32 = n: int | -0x8000_0000 <= n < 0x8000_0000

  type Uint32 = n: nat | n < 0x1_0000_0000

  /** `sai_object_id_t`: an unsigned 64-bit number. */
  type Oid = n: nat | n < 0x1_0000_0000_0000_0000

  const NULL_OID: Oid := 0

  /**
   * `sai_status_t`. A status is identified with the name SaiSerialize prints for it, so printing
   * and parsing a status are the identity.
   */
  type Status = string

  const SUCCESS: Status := "SAI_STATUS_SUCCESS"
  const FAILURE: Status := "SAI_STATUS_FAILURE"
  const NOT_SUPPORTED: Status := "SAI_STATUS_NOT_SUPPORTED"
}

/** Facts about sequences, apart from what the sequences hold. */
module Sequences {

  lemma TakeOneMore<T>(s: seq<T>, k: nat)
    requires k < |s|
    ensures s[..k + 1] == s[..k] + [s[k]]
  {}

  lemma TakeAll<T>(s: seq<T>)
    ensures s[..|s|] == s
  {}

  lemma AllButLast<T>(s: seq<T>)
    requires s != []
    ensures s == s[..|s| - 1] + [s[|s| - 1]]
  {}

  lemma AppendIsInjective<T>(a: seq<T>, x: T, b: seq<T>, y: T)
    ensures a + [x] == b + [y] <==> a == b && x == y
  {
    assert (a + [x])[..|a|] == a && (a + [x])[|a|] == x;
    assert (b + [y])[..|b|] == b && (b + [y])[|b|] == y;
  }

  lemma AppendAssociates<T>(a: seq<T>, b: seq<T>, c: seq<T>)
    ensures a + b + c == a + (b + c)
  {}

  lemma FirstAndRest<T>(s: seq<T>)
    requires s != []
    ensures s == [s[0]] + s[1..]
  {}

  lemma Prepended<T>(whole: seq<T>, first: T, rest: seq<T>)
    requires |whole| == |rest| + 1 && whole[0] == first
    requires forall k :: 0 <= k < |rest| ==> whole[k + 1] == rest[k]
    ensures whole == [first] + rest
  {}

  /** A list that starts with another one continues behind it. */
  lemma Continues<T>(whole: seq<T>, front: seq<T>, back: seq<T>)
    requires front <= whole
    ensures whole + back == front + (whole[|front|..] + back)
  {}
}

/** The unsigned bit operations that object ids are built from, on natural numbers. */
module Bits {

  function Pow2(k: nat): (p: nat)
    ensures 0 < p
  {
    if k == 0 then 1 else 2 * Pow2(k - 1)
  }

  /** Bitwise or, bit by bit from the lowest one. */
  function BitOr(a: nat, b: nat): nat
    decreases a + b
  {
    if a == 0 then b
    else if b == 0 then a
    else (if a % 2 == 1 || b % 2 == 1 then 1 else 0) + 2 * BitOr(a / 2, b / 2)
  }

  /** Two numbers that have no bit in common are joined by addition. */
  lemma {:induction false} OrOfDisjoint(high: nat, k: nat, low: nat)
    requires low < Pow2(k)
    ensures BitOr(high * Pow2(k), low) == high * Pow2(k) + low
    decreases k
  {
    if k == 0 {
    } else {
      var half := high * Pow2(k - 1);
      assert high * Pow2(k) == 2 * half;
      if half != 0 && low != 0 {
        OrOfDisjoint(high, k - 1, low / 2);
      }
    }
  }
}
