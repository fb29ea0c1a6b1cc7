/** Which pieces of a torrent are pinned: prefixPieceIndices of streamer/storage.go. */
module PrefixPieces {

  datatype File = File(isVideo: bool, offset: nat, length: int)

  function Min(a: int, b: int): int {
    if a < b then a else b
  }

  /** Byte `b` of the torrent is among the first `prefixBytes` or the last `suffixBytes` of `f`. */
  predicate Pins(f: File, prefixBytes: int, suffixBytes: int, b: int) {
    && f.isVideo && f.offset <= b < f.offset + f.length
    && (b < f.offset + prefixBytes || b >= f.offset + f.length - suffixBytes)
  }

  /** Piece `i` holds a pinned byte of one of `files`. */
  ghost predicate Pinned(files: seq<File>, pieceLength: int, prefixBytes: int, suffixBytes: int, i: int)
    requires pieceLength > 0
  {
    exists k, b :: 0 <= k < |files| && Pins(files[k], prefixBytes, suffixBytes, b) && IsIn(b, i, pieceLength)
  }

  predicate IsIn(b: int, i: int, pieceLength: int) {
    i * pieceLength <= b < (i + 1) * pieceLength
  }

  ghost predicate Touches(first: int, last: int, pieceLength: int, i: int) {
    exists b :: first <= b <= last && IsIn(b, i, pieceLength)
  }

  lemma Monotone(a: int, b: int, n: int)
    requires a <= b && n > 0
    ensures a * n <= b * n
  {}

  lemma PieceOf(b: nat, pieceLength: int)
    requires pieceLength > 0
    ensures IsIn(b, b / pieceLength, pieceLength)
  {
    var q := b / pieceLength;
    assert b == q * pieceLength + b % pieceLength;
    assert (q + 1) * pieceLength == q * pieceLength + pieceLength;
  }

  lemma PiecesInOrder(b: int, i: int, c: int, j: int, pieceLength: int)
    requires pieceLength > 0 && b <= c && IsIn(b, i, pieceLength) && IsIn(c, j, pieceLength)
    ensures i <= j
  {
    if j < i { Monotone(j + 1, i, pieceLength); }
  }

  /** The pieces from that of the first byte to that of the last are those that hold a byte
      between them. */
  lemma RangeOfPieces(first: nat, last: int, pieceLength: int, i: int)
    requires pieceLength > 0 && first <= last
    ensures first / pieceLength <= i <= last / pieceLength <==> Touches(first, last, pieceLength, i)
  {
    var lo, hi := first / pieceLength, last / pieceLength;
    PieceOf(first, pieceLength);
    PieceOf(last, pieceLength);
    if b :| first <= b <= last && IsIn(b, i, pieceLength) {
      PiecesInOrder(first, lo, b, i, pieceLength);
      PiecesInOrder(b, i, last, hi, pieceLength);
    }
    if lo <= i <= hi {
      if i == lo {
        assert IsIn(first, i, pieceLength);
      } else {
        var b := i * pieceLength;
        assert (i + 1) * pieceLength == b + pieceLength;
        Monotone(lo + 1, i, pieceLength);
        Monotone(i, hi, pieceLength);
        assert IsIn(b, i, pieceLength);
      }
    }
  }

  method AddRange(out: set<int>, firstByte: int, lastByte: int, pieceLength: int) returns (out': set<int>)
    requires pieceLength > 0 && 0 <= firstByte <= lastByte
    ensures forall i :: i in out' <==> i in out || Touches(firstByte, lastByte, pieceLength, i)
  {
    var begin, end := firstByte / pieceLength, lastByte / pieceLength;
    out' := out;
    var i := begin;
    while i <= end
      invariant begin <= i
      invariant forall j :: j in out' <==> j in out || (begin <= j < i && j <= end)
      decreases end + 1 - i
    {
      out' := out' + {i};
      i := i + 1;
    }
    forall j ensures begin <= j <= end <==> Touches(firstByte, lastByte, pieceLength, j) {
      RangeOfPieces(firstByte, lastByte, pieceLength, j);
    }
  }

  /** Exactly the pieces that hold a pinned byte; none when the piece length is unknown. */
  method PrefixPieceIndices(files: seq<File>, pieceLength: int, prefixBytes: int, suffixBytes: int)
    returns (out: set<int>)
    ensures pieceLength <= 0 ==> out == {}
    ensures pieceLength > 0 ==> forall i :: i in out <==> Pinned(files, pieceLength, prefixBytes, suffixBytes, i)
  {
    out := {};
    if pieceLength <= 0 {
      return;
    }
    for k := 0 to |files|
      invariant forall i :: i in out <==> Pinned(files[..k], pieceLength, prefixBytes, suffixBytes, i)
    {
      var f := files[k];
      ghost var before := out;
      if f.isVideo && f.length > 0 {
        if prefixBytes > 0 {
          out := AddRange(out, f.offset, f.offset + Min(prefixBytes, f.length) - 1, pieceLength);
        }
        if suffixBytes > 0 {
          var lastByte := f.offset + f.length - 1;
          out := AddRange(out, lastByte - Min(suffixBytes, f.length) + 1, lastByte, pieceLength);
        }
      }
      forall i
        ensures i in out <==>
                i in before || exists b :: Pins(f, prefixBytes, suffixBytes, b) && IsIn(b, i, pieceLength) {}
      forall i ensures Pinned(files[..k + 1], pieceLength, prefixBytes, suffixBytes, i) <==>
                       Pinned(files[..k], pieceLength, prefixBytes, suffixBytes, i)
                       || exists b :: Pins(f, prefixBytes, suffixBytes, b) && IsIn(b, i, pieceLength)
      {
        PinnedOneMore(files, k, pieceLength, prefixBytes, suffixBytes, i);
      }
    }
    assert files[..|files|] == files;
  }

  lemma PinnedOneMore(files: seq<File>, k: nat, pieceLength: int, prefixBytes: int, suffixBytes: int, i: int)
    requires pieceLength > 0 && k < |files|
    ensures Pinned(files[..k + 1], pieceLength, prefixBytes, suffixBytes, i) <==>
            Pinned(files[..k], pieceLength, prefixBytes, suffixBytes, i)
            || exists b :: Pins(files[k], prefixBytes, suffixBytes, b) && IsIn(b, i, pieceLength)
  {
    if Pinned(files[..k + 1], pieceLength, prefixBytes, suffixBytes, i) {
      var j, b :| 0 <= j < |files[..k + 1]|
                  && Pins(files[..k + 1][j], prefixBytes, suffixBytes, b) && IsIn(b, i, pieceLength);
      if j < k { assert files[..k][j] == files[..k + 1][j]; }
    }
    if Pinned(files[..k], pieceLength, prefixBytes, suffixBytes, i) {
      var j, b :| 0 <= j < |files[..k]| && Pins(files[..k][j], prefixBytes, suffixBytes, b) && IsIn(b, i, pieceLength);
      assert files[..k + 1][j] == files[..k][j];
    }
    if b :| Pins(files[k], prefixBytes, suffixBytes, b) && IsIn(b, i, pieceLength) {
      assert files[..k + 1][k] == files[k];
    }
  }

  /** When every file lies within the torrent, every pinned piece is one of its pieces. */
  lemma PinnedPiecesExist(files: seq<File>, pieceLength: int, prefixBytes: int, suffixBytes: int,
                          total: nat, pieces: nat, i: int)
    requires pieceLength > 0 && Pinned(files, pieceLength, prefixBytes, suffixBytes, i)
    requires forall k :: 0 <= k < |files| ==> files[k].offset + files[k].length <= total
    requires total <= pieces * pieceLength
    ensures 0 <= i < pieces
  {
    var k, b :| 0 <= k < |files| && Pins(files[k], prefixBytes, suffixBytes, b) && IsIn(b, i, pieceLength);
    assert i * pieceLength < pieces * pieceLength;
    if i < 0 { Monotone(i + 1, 0, pieceLength); }
    if pieces <= i { Monotone(pieces, i, pieceLength); }
  }
}
