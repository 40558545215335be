/**
 * The reply to an enum capability query: lib/ServerSai.cpp prints numbers with trailing commas,
 * lib/ClientSai.cpp scans them back by position.
 */
module EnumList {
  import opened Common
  import opened Text
  import opened Numerals
  import opened Sequences

  function Print(xs: seq<Int32>): string { Terminated(Strings(xs), ',') }

  /**
   * The scanning loop: from `position` on, at most `k` numbers to go, `read` read so far. `stoi`
   * reads one piece.
   */
  function ScanFrom(stoi: string -> Result<Int32>, text: string, position: nat, k: nat, read: seq<Int32>)
    : Result<seq<Int32>>
    requires position <= |text|
    decreases k
  {
    if k == 0 then Returned(read)
    else
      var comma := Find(text, ',', position);
      var parsed := stoi(text[position..if comma.None? then |text| else comma.value]);
      if parsed.Thrown? then Thrown
      else if comma.None? then Returned(read + [parsed.value])
      else ScanFrom(stoi, text, comma.value + 1, k - 1, read + [parsed.value])
  }

  function ReadNumber(piece: string): Result<Int32> { Stoi(piece) }

  /** What the client reads from a text for a reported count. */
  function Scan(text: string, count: nat): Result<seq<Int32>> { ScanFrom(ReadNumber, text, 0, count, []) }

  lemma CommaEndsPiece(text: string, position: nat, piece: string, after: string)
    requires position <= |text| && text[position..] == piece + [','] + after && ',' !in piece
    ensures var comma := position + |piece|;
            && Find(text, ',', position) == Some(comma)
            && text[position..comma] == piece && text[comma + 1..] == after
  {
    var rest, comma := text[position..], position + |piece|;
    forall k | position <= k < comma ensures text[k] != ',' {
      assert text[k] == rest[k - position] == piece[k - position];
    }
    assert text[comma] == rest[|piece|] == ',';
    FindIs(text, ',', position, comma);
    assert text[position..comma] == rest[..|piece|];
    assert text[comma + 1..] == rest[|piece| + 1..];
  }

  /** The piece from `position` to the comma before `next` stands for `x`. */
  predicate ReadsAt(stoi: string -> Result<Int32>, text: string, position: nat, next: nat, x: Int32) {
    && position < next <= |text| && Find(text, ',', position) == Some(next - 1)
    && stoi(text[position..next - 1]) == Returned(x)
  }

  /** A round that reads `x` goes on at `next`. */
  lemma OneRound(stoi: string -> Result<Int32>, text: string, position: nat, k: nat, read: seq<Int32>,
                 next: nat, x: Int32)
    requires ReadsAt(stoi, text, position, next, x) && k > 0
    ensures ScanFrom(stoi, text, position, k, read) == ScanFrom(stoi, text, next, k - 1, read + [x])
  {}

  /** After the last comma the loop reads a number from nothing. */
  lemma NothingLeft(stoi: string -> Result<Int32>, text: string, position: nat, k: nat, read: seq<Int32>)
    requires position <= |text| && text[position..] == "" && k > 0 && stoi("") == Thrown
    ensures ScanFrom(stoi, text, position, k, read) == Thrown
  {}

  lemma FirstPieceFound(text: string, position: nat, pieces: seq<string>)
    requires pieces != [] && ',' !in pieces[0]
    requires position <= |text| && text[position..] == Terminated(pieces, ',')
    ensures var comma := position + |pieces[0]|;
            && Find(text, ',', position) == Some(comma)
            && text[position..comma] == pieces[0] && text[comma + 1..] == Terminated(pieces[1..], ',')
  {
    TerminatedFirst(pieces, ',');
    CommaEndsPiece(text, position, pieces[0], Terminated(pieces[1..], ','));
  }

  /** Pieces without a comma that stand for the given numbers. */
  predicate ReadAs(stoi: string -> Result<Int32>, pieces: seq<string>, xs: seq<Int32>) {
    |pieces| == |xs| && forall i :: 0 <= i < |xs| ==> ',' !in pieces[i] && stoi(pieces[i]) == Returned(xs[i])
  }

  /** The text from `position` on is terminated pieces that stand for the given numbers. */
  predicate PiecesAhead(stoi: string -> Result<Int32>, text: string, position: nat,
                        pieces: seq<string>, xs: seq<Int32>) {
    ReadAs(stoi, pieces, xs) && position <= |text| && text[position..] == Terminated(pieces, ',')
  }

  /** What comes of reading `k` of the numbers ahead. */
  function ReadOn(read: seq<Int32>, xs: seq<Int32>, k: nat): Result<seq<Int32>> {
    if k <= |xs| then Returned(read + xs[..k]) else Thrown
  }

  lemma ReadOnStep(read: seq<Int32>, xs: seq<Int32>, k: nat)
    requires xs != [] && k > 0
    ensures ReadOn(read, xs, k) == ReadOn(read + [xs[0]], xs[1..], k - 1)
  {
    if k <= |xs| {
      assert xs[..k] == [xs[0]] + xs[1..][..k - 1];
      AppendAssociates(read, [xs[0]], xs[1..][..k - 1]);
    }
  }

  /** The first of terminated pieces stands for the first number. */
  lemma FirstPieceReads(stoi: string -> Result<Int32>, text: string, position: nat, pieces: seq<string>, xs: seq<Int32>)
    returns (next: nat)
    requires PiecesAhead(stoi, text, position, pieces, xs) && xs != []
    ensures PiecesAhead(stoi, text, next, pieces[1..], xs[1..]) && ReadsAt(stoi, text, position, next, xs[0])
  {
    next := position + |pieces[0]| + 1;
    FirstPieceFound(text, position, pieces);
  }

  lemma {:induction false} ScanOfPieces(stoi: string -> Result<Int32>, text: string, position: nat,
                                        pieces: seq<string>, xs: seq<Int32>, k: nat, read: seq<Int32>)
    requires stoi("") == Thrown && PiecesAhead(stoi, text, position, pieces, xs)
    ensures ScanFrom(stoi, text, position, k, read) == ReadOn(read, xs, k)
    decreases k
  {
    if k == 0 {
      assert read + xs[..0] == read;
    } else if xs == [] {
      NothingLeft(stoi, text, position, k, read);
    } else {
      var next := FirstPieceReads(stoi, text, position, pieces, xs);
      OneRound(stoi, text, position, k, read, next, xs[0]);
      ScanOfPieces(stoi, text, next, pieces[1..], xs[1..], k - 1, read + [xs[0]]);
      ReadOnStep(read, xs, k);
    }
  }

  lemma NumberReadsBack(x: Int32)
    ensures ReadNumber(ToString(x)) == Returned(x) && ',' !in ToString(x)
  {
    ToStringAlphabet(x);
    StoiOfToString(x);
  }

  lemma NothingIsNoNumber()
    ensures ReadNumber("") == Thrown
  {
    assert LeadingDigits("") == 0;
  }

  /**
   * Scanning a printed list for `k` numbers yields its first `k` numbers, negative ones included,
   * and throws exactly when the list is shorter.
   */
  lemma ScanRecoversExactly(xs: seq<Int32>, k: nat)
    ensures Scan(Print(xs), k) == if k <= |xs| then Returned(xs[..k]) else Thrown
  {
    forall i | 0 <= i < |xs| ensures ',' !in Strings(xs)[i] && ReadNumber(Strings(xs)[i]) == Returned(xs[i]) {
      NumberReadsBack(xs[i]);
    }
    NothingIsNoNumber();
    ScanOfPieces(ReadNumber, Print(xs), 0, Strings(xs), xs, k, []);
    if k <= |xs| {
      assert [] + xs[..k] == xs[..k];
    }
  }

  type Pairs = seq<(string, string)>

  function ReplyPairs(status: Status, xs: seq<Int32>): Pairs {
    if status == SUCCESS then [("ENUM_CAPABILITIES", Print(xs)), ("ENUM_COUNT", ToString(|xs|))] else []
  }

  datatype Answer = Answer(status: Status, capabilities: seq<Int32>)

  /** The client's reading of a reply; a negative count becomes a large one in 32 bits. */
  function Read(status: Status, pairs: Pairs): Result<Answer> {
    if status != SUCCESS then Returned(Answer(status, []))
    else if |pairs| != 2 then Returned(Answer(FAILURE, []))
    else
      match Stoi(pairs[1].1)
      case Thrown => Thrown
      case Returned(count) =>
        match Scan(pairs[0].1, ToUint32(count))
        case Thrown => Thrown
        case Returned(xs) => Returned(Answer(status, xs))
  }

  lemma PrintedListIsRead(xs: seq<Int32>)
    requires |xs| < TWO_31
    ensures Scan(Print(xs), ToUint32(|xs|)) == Returned(xs)
  {
    ScanRecoversExactly(xs, |xs|);
    assert xs[..|xs|] == xs;
  }

  /**
   * The client receives the server's status and, on success, exactly the server's numbers. A list
   * whose length is no `int` is the one that cannot be reported.
   */
  lemma EnumQueryRoundTrip(status: Status, xs: seq<Int32>)
    requires |xs| < TWO_32
    ensures Read(status, ReplyPairs(status, xs))
            == if status != SUCCESS then Returned(Answer(status, []))
               else if |xs| < TWO_31 then Returned(Answer(status, xs))
               else Thrown
  {
    if status == SUCCESS {
      StoiOfToString(|xs|);
      if |xs| < TWO_31 {
        PrintedListIsRead(xs);
      }
    }
  }

  /**
   * The reported count decides, whatever was printed: so many numbers are read, a count that is
   * negative or too large throws, and a reply that is not a pair of values is a failure.
   */
  lemma CountDecides(xs: seq<Int32>, count: Int32, fields: (string, string), pairs: Pairs, status: Status)
    requires |xs| < TWO_31
    ensures Read(SUCCESS, [(fields.0, Print(xs)), (fields.1, ToString(count))])
            == if 0 <= count <= |xs| then Returned(Answer(SUCCESS, xs[..count])) else Thrown
    ensures |pairs| != 2 ==> Read(SUCCESS, pairs) == Returned(Answer(FAILURE, []))
    ensures status != SUCCESS ==> Read(status, pairs) == Returned(Answer(status, []))
  {
    StoiOfToString(count);
    ScanRecoversExactly(xs, ToUint32(count));
  }

  /** The server's reply to a query that its SAI implementation answered with `xs`. */
  method ProcessAttrEnumValuesCapabilityQuery(status: Status, xs: seq<Int32>) returns (entry: Pairs)
    ensures entry == ReplyPairs(status, xs)
  {
    entry := [];
    if status == SUCCESS {
      var join := "";
      for i := 0 to |xs|
        invariant join == Terminated(Strings(xs)[..i], ',')
      {
        assert Strings(xs)[..i + 1][..i] == Strings(xs)[..i];
        join := join + ToString(xs[i]) + ",";
      }
      assert Strings(xs)[..|xs|] == Strings(xs);
      entry := [("ENUM_CAPABILITIES", join), ("ENUM_COUNT", ToString(|xs|))];
    }
  }

  /** The scanning loop; `n` is how many numbers it wrote. */
  method ScanInto(stoi: string -> Result<Int32>, capabilityStr: string, numCapabilities: nat, list: array<Int32>)
    returns (ok: bool, n: nat)
    requires numCapabilities <= list.Length
    modifies list
    ensures match ScanFrom(stoi, capabilityStr, 0, numCapabilities, [])
            case Thrown => !ok
            case Returned(xs) => ok && |xs| == n <= list.Length && list[..n] == xs && list[n..] == old(list[..])[n..]
  {
    var position: nat := 0;
    n := 0;
    ghost var read: seq<Int32> := [];
    while n < numCapabilities
      invariant n <= numCapabilities && position <= |capabilityStr|
      invariant ScanFrom(stoi, capabilityStr, 0, numCapabilities, [])
                == ScanFrom(stoi, capabilityStr, position, numCapabilities - n, read)
      invariant |read| == n && forall i :: 0 <= i < n ==> list[i] == read[i]
      invariant forall i :: n <= i < list.Length ==> list[i] == old(list[i])
    {
      var oldPosition := position;
      var comma := Find(capabilityStr, ',', oldPosition);
      var capability := capabilityStr[oldPosition..if comma.None? then |capabilityStr| else comma.value];
      var parsed := stoi(capability);
      if parsed.Thrown? {
        return false, n;
      }
      list[n] := parsed.value;
      read := read + [parsed.value];
      n := n + 1;
      if comma.None? {
        return true, n;
      }
      position := comma.value + 1;
    }
    return true, n;
  }

  /** The caller's list has room for the reported count; what lies beyond the numbers read stays. */
  method WaitForQueryAttributeEnumValuesCapabilityResponse(status: Status, values: Pairs, list: array<Int32>)
    returns (r: Result<Status>)
    requires status == SUCCESS && |values| == 2 && Stoi(values[1].1).Returned? ==>
               ToUint32(Stoi(values[1].1).value) <= list.Length
    modifies list
    ensures match Read(status, values)
            case Thrown => r.Thrown?
            case Returned(answer) =>
              var n := |answer.capabilities|;
              && r == Returned(answer.status) && n <= list.Length
              && list[..n] == answer.capabilities && list[n..] == old(list[..])[n..]
  {
    if status != SUCCESS {
      return Returned(status);
    }
    if |values| != 2 {
      return Returned(FAILURE);
    }
    var parsed := Stoi(values[1].1);
    if parsed.Thrown? {
      return Thrown;
    }
    var ok, n := ScanInto(ReadNumber, values[0].1, ToUint32(parsed.value), list);
    return if ok then Returned(status) else Thrown;
  }
}
