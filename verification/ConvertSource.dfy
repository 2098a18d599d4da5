/**
 The concatenated source images of a conversion: selecting the image that holds
 a sector, and reading across images (xemu/qemu-img.c:1700-1709, 1817-1868).
 */
module ConvertSource {

  import opened IntMath
  import opened Sequences
  import opened SparseScan

  function Flatten(srcs: seq<seq<Sector>>): seq<Sector> {
    if srcs == [] then [] else srcs[0] + Flatten(srcs[1..])
  }

  // The image that holds sector x, and the number of its first sector.
  function SelectPart(srcs: seq<seq<Sector>>, x: nat): (r: (nat, nat))
    requires x < |Flatten(srcs)|
    ensures var (cur, offset) := r;
      && cur < |srcs|
      && offset <= x < offset + |srcs[cur]|
  {
    if x < |srcs[0]| then (0, 0)
    else
      var (cur, offset) := SelectPart(srcs[1..], x - |srcs[0]|);
      (cur + 1, offset + |srcs[0]|)
  }

  lemma {:induction false} PartHoldsSector(srcs: seq<seq<Sector>>, x: nat)
    requires x < |Flatten(srcs)|
    ensures var (cur, offset) := SelectPart(srcs, x);
      && offset + |srcs[cur]| <= |Flatten(srcs)|
      && Flatten(srcs)[offset..offset + |srcs[cur]|] == srcs[cur]
  {
    var rest := Flatten(srcs[1..]);
    if x < |srcs[0]| {
      assert (srcs[0] + rest)[0..|srcs[0]|] == srcs[0];
    } else {
      PartHoldsSector(srcs[1..], x - |srcs[0]|);
      var (cur, offset) := SelectPart(srcs[1..], x - |srcs[0]|);
      SliceBehind(srcs[0], rest, offset, offset + |srcs[1..][cur]|);
    }
  }

  lemma {:induction false} SelectPartSkips(srcs: seq<seq<Sector>>, cur: nat, x: nat)
    requires cur <= |srcs| && x < |Flatten(srcs)|
    requires |Flatten(srcs[..cur])| <= x
    ensures cur < |srcs|
    ensures |Flatten(srcs[..cur + 1])| == |Flatten(srcs[..cur])| + |srcs[cur]|
    ensures x < |Flatten(srcs[..cur])| + |srcs[cur]| ==> SelectPart(srcs, x) == (cur, |Flatten(srcs[..cur])|)
  {
    assert srcs[..|srcs|] == srcs;
    if cur == 0 {
      assert srcs[..1] == [srcs[0]];
      assert Flatten([srcs[0]]) == srcs[0] + Flatten([]);
    } else {
      assert srcs[..cur][1..] == srcs[1..][..cur - 1];
      assert srcs[..cur + 1][1..] == srcs[1..][..cur];
      SelectPartSkips(srcs[1..], cur - 1, x - |srcs[0]|);
    }
  }

  method ConvertSelectPart(srcs: seq<seq<Sector>>, sectorNum: nat)
    returns (srcCur: nat, srcCurOffset: nat)
    requires sectorNum < |Flatten(srcs)|
    ensures (srcCur, srcCurOffset) == SelectPart(srcs, sectorNum)
  {
    srcCur, srcCurOffset := 0, 0;
    SelectPartSkips(srcs, 0, sectorNum);
    while sectorNum - srcCurOffset >= |srcs[srcCur]|
      invariant srcCur < |srcs|
      invariant srcCurOffset == |Flatten(srcs[..srcCur])| <= sectorNum
      decreases |srcs| - srcCur
    {
      SelectPartSkips(srcs, srcCur, sectorNum);
      srcCurOffset := srcCurOffset + |srcs[srcCur]|;
      srcCur := srcCur + 1;
      SelectPartSkips(srcs, srcCur, sectorNum);
    }
    SelectPartSkips(srcs, srcCur, sectorNum);
  }

  // A read request fails when it touches an unreadable sector.
  predicate Readable(unreadable: set<nat>, start: nat, n: nat) {
    forall j :: start <= j < start + n ==> j !in unreadable
  }

  // The source with its unreadable sectors replaced by zeroes.
  function Salvaged(source: seq<Sector>, unreadable: set<nat>): (r: seq<Sector>)
    ensures |r| == |source|
  {
    seq(|source|, j requires 0 <= j < |source| => if j in unreadable then ZERO else source[j])
  }

  // A request of n sectors that stays in one image.
  lemma PieceOfSource(srcs: seq<seq<Sector>>, unreadable: set<nat>, pos: nat, n: nat)
    requires pos < |Flatten(srcs)|
    requires var (cur, offset) := SelectPart(srcs, pos); pos + n <= offset + |srcs[cur]|
    ensures pos + n <= |Flatten(srcs)|
    ensures var (cur, offset) := SelectPart(srcs, pos);
      Readable(unreadable, pos, n) ==>
        srcs[cur][pos - offset..pos - offset + n] == Salvaged(Flatten(srcs), unreadable)[pos..pos + n]
    ensures n == 1 && !Readable(unreadable, pos, n) ==>
              [ZERO] == Salvaged(Flatten(srcs), unreadable)[pos..pos + n]
  {
    PartHoldsSector(srcs, pos);
    var (cur, offset) := SelectPart(srcs, pos);
    var whole := Flatten(srcs);
    assert whole[pos..pos + n] == whole[offset..offset + |srcs[cur]|][pos - offset..pos - offset + n];
    if Readable(unreadable, pos, n) {
      assert Salvaged(whole, unreadable)[pos..pos + n] == whole[pos..pos + n];
    }
  }

  datatype Outcome = Got(piece: seq<Sector>) | RetrySingly(until: nat) | RequestFailed

  // One read request of convert_co_read, of at most limit sectors at pos.
  method ReadRequest(srcs: seq<seq<Sector>>, pos: nat, limit: nat, singleReadUntil: nat,
                     unreadable: set<nat>, salvage: bool)
    returns (r: Outcome)
    requires limit > 0 && pos + limit <= |Flatten(srcs)|
    ensures r.Got? ==>
      && 0 < |r.piece| <= limit
      && r.piece == Salvaged(Flatten(srcs), unreadable)[pos..pos + |r.piece|]
      && (!salvage ==> Readable(unreadable, pos, |r.piece|))
    ensures r.RequestFailed? ==> !salvage && !Readable(unreadable, pos, limit)
    ensures r.RetrySingly? ==>
      salvage && singleReadUntil <= pos - SelectPart(srcs, pos).1 < r.until
  {
    var cur, offset := ConvertSelectPart(srcs, pos);
    var at := pos - offset;
    var n := if singleReadUntil > at then 1 else Min(limit, |srcs[cur]| - at);
    PieceOfSource(srcs, unreadable, pos, n);
    if Readable(unreadable, pos, n) {
      return Got(srcs[cur][at..at + n]);
    } else if !salvage {
      return RequestFailed;
    } else if n > 1 {
      return RetrySingly(at + n);
    } else {
      return Got([ZERO]);
    }
  }

  // Reads sectors across the images.  Without salvage the read succeeds exactly if
  // every sector is readable; with salvage it always does, zeroing the others.
  method ConvertCoRead(srcs: seq<seq<Sector>>, sectorNum: nat, nbSectors: nat, unreadable: set<nat>, salvage: bool)
    returns (ok: bool, buf: seq<Sector>)
    requires sectorNum + nbSectors <= |Flatten(srcs)|
    ensures ok <==> salvage || Readable(unreadable, sectorNum, nbSectors)
    ensures ok ==> buf == Salvaged(Flatten(srcs), unreadable)[sectorNum..sectorNum + nbSectors]
  {
    ghost var whole := Salvaged(Flatten(srcs), unreadable);
    var singleReadUntil := 0;
    ghost var retrying := false;
    buf := [];
    while |buf| < nbSectors
      invariant |buf| <= nbSectors
      invariant buf == whole[sectorNum..sectorNum + |buf|]
      invariant !salvage ==> Readable(unreadable, sectorNum, |buf|)
      invariant retrying ==> |buf| < nbSectors
      invariant retrying ==> singleReadUntil > sectorNum + |buf| - SelectPart(srcs, sectorNum + |buf|).1
      decreases nbSectors - |buf|, !retrying
    {
      var r := ReadRequest(srcs, sectorNum + |buf|, nbSectors - |buf|, singleReadUntil, unreadable, salvage);
      match r
      case Got(piece) =>
        buf := buf + piece;
        retrying := false;
      case RetrySingly(until) =>
        singleReadUntil := until;
        retrying := true;
      case RequestFailed =>
        return false, buf;
    }
    ok := true;
  }
}
