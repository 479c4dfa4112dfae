/** docker/warp/connect4.py: splitting the request head off a byte stream, tunnelling the rest, and
    rewriting an absolute-form request. Bytes are characters, as the latin-1 decoding has them. */
module Connect4 {
  import opened Wrappers

  const BLANK := "\r\n\r\n"
  const RECV: nat := 65536
  const LIMIT: nat := 1048576

  /** What one recv brings. After the last one the peer has closed. */
  datatype Chunk = Data(bytes: string) | Broken

  predicate WellFormed(chunks: seq<Chunk>) {
    forall i :: 0 <= i < |chunks| && chunks[i].Data? ==> 0 < |chunks[i].bytes| <= RECV
  }

  /** A stream without a receive error. */
  predicate Whole(chunks: seq<Chunk>) {
    WellFormed(chunks) && forall i :: 0 <= i < |chunks| ==> chunks[i].Data?
  }

  /** The bytes of the first n chunks. */
  function Bytes(chunks: seq<Chunk>, n: nat): string
    requires n <= |chunks|
  {
    if n == 0 then "" else Bytes(chunks, n - 1) + if chunks[n - 1].Data? then chunks[n - 1].bytes else ""
  }

  function Stream(chunks: seq<Chunk>): string {
    Bytes(chunks, |chunks|)
  }

  predicate BlankAt(s: string, i: nat) {
    i + 4 <= |s| && s[i..i + 4] == BLANK
  }

  /** Where the first empty line at or after i begins. */
  function FirstBlankFrom(s: string, i: nat): (r: Option<nat>)
    requires i <= |s|
    ensures r.Some? ==> i <= r.value && r.value + 4 <= |s|
    decreases |s| - i
  {
    if BlankAt(s, i) then Some(i) else if i == |s| then None else FirstBlankFrom(s, i + 1)
  }

  function FirstBlank(s: string): (r: Option<nat>)
    ensures r.Some? ==> r.value + 4 <= |s|
  {
    FirstBlankFrom(s, 0)
  }

  lemma {:induction false} FirstBlankFromIsFirst(s: string, i: nat)
    requires i <= |s|
    ensures match FirstBlankFrom(s, i)
            case None => forall j :: i <= j ==> !BlankAt(s, j)
            case Some(k) => BlankAt(s, k) && forall j :: i <= j < k ==> !BlankAt(s, j)
    decreases |s| - i
  {
    if !BlankAt(s, i) && i < |s| {
      FirstBlankFromIsFirst(s, i + 1);
    }
  }

  /** It is an empty line, none begins earlier, and without one there is none at all. */
  lemma FirstBlankIsFirst(s: string)
    ensures match FirstBlank(s)
            case None => forall j: nat :: !BlankAt(s, j)
            case Some(k) => BlankAt(s, k) && forall j :: 0 <= j < k ==> !BlankAt(s, j)
  {
    FirstBlankFromIsFirst(s, 0);
  }

  /** What arrives later does not move it. */
  lemma FirstBlankIsStable(s: string, more: string)
    requires FirstBlank(s).Some?
    ensures FirstBlank(s + more) == FirstBlank(s)
  {
    var i, t := FirstBlank(s).value, s + more;
    FirstBlankIsFirst(s);
    FirstBlankIsFirst(t);
    assert t[i..i + 4] == s[i..i + 4];
    assert BlankAt(t, i);
    forall j | 0 <= j < i
      ensures !BlankAt(t, j)
    {
      assert t[j..j + 4] == s[j..j + 4];
      assert !BlankAt(s, j);
    }
  }

  lemma {:induction false} BytesGrow(chunks: seq<Chunk>, m: nat, n: nat)
    requires m <= n <= |chunks|
    ensures Bytes(chunks, m) <= Bytes(chunks, n)
  {
    if m < n {
      BytesGrow(chunks, m, n - 1);
    }
  }

  /** What the chunks from n on still bring. */
  function Later(chunks: seq<Chunk>, n: nat): string
    decreases |chunks| - n
  {
    if n >= |chunks| then "" else (if chunks[n].Data? then chunks[n].bytes else "") + Later(chunks, n + 1)
  }

  lemma {:induction false} BytesThenLater(chunks: seq<Chunk>, n: nat)
    requires n <= |chunks|
    ensures Bytes(chunks, n) + Later(chunks, n) == Stream(chunks)
    decreases |chunks| - n
  {
    if n < |chunks| {
      BytesThenLater(chunks, n + 1);
      var d := if chunks[n].Data? then chunks[n].bytes else "";
      assert Bytes(chunks, n) + (d + Later(chunks, n + 1)) == Bytes(chunks, n) + d + Later(chunks, n + 1);
    }
  }

  /******* read_head *******/

  datatype ReadOutcome =
    | Head(head: string, rest: string, used: nat)
    | Closed
    | TooLong
    | Raised

  /** read_head with n chunks in the buffer. */
  function ReadFrom(chunks: seq<Chunk>, n: nat): (r: ReadOutcome)
    requires n <= |chunks|
    ensures r.Head? ==> n <= r.used <= |chunks|
    decreases |chunks| - n
  {
    var buf := Bytes(chunks, n);
    var blank := FirstBlank(buf);
    if blank.Some? then Head(buf[..blank.value], buf[blank.value + 4..], n)
    else if n == |chunks| then Closed
    else if chunks[n].Broken? then Raised
    else if |Bytes(chunks, n + 1)| > LIMIT then TooLong
    else ReadFrom(chunks, n + 1)
  }

  lemma SplitBuffer(buf: string, later: string)
    requires FirstBlank(buf).Some?
    ensures var i := FirstBlank(buf).value;
            FirstBlank(buf + later) == Some(i) && buf[..i] + BLANK + (buf[i + 4..] + later) == buf + later
  {
    var i := FirstBlank(buf).value;
    FirstBlankIsFirst(buf);
    FirstBlankIsStable(buf, later);
    assert buf[..i] + buf[i..i + 4] + (buf[i + 4..] + later) == buf + later;
  }

  /** The outcome's head is the stream up to its first empty line, and not a byte is lost: the rest
      and the chunks still to come are the stream after it. */
  predicate Splits(chunks: seq<Chunk>, r: ReadOutcome) {
    r.Head? ==>
      && FirstBlank(Stream(chunks)) == Some(|r.head|)
      && r.head + BLANK + (r.rest + Later(chunks, r.used)) == Stream(chunks)
  }

  lemma HeadNow(chunks: seq<Chunk>, n: nat)
    requires n <= |chunks| && FirstBlank(Bytes(chunks, n)).Some?
    ensures Splits(chunks, ReadFrom(chunks, n))
  {
    BytesThenLater(chunks, n);
    SplitBuffer(Bytes(chunks, n), Later(chunks, n));
  }

  /** Whenever read_head succeeds it splits the stream. */
  lemma {:induction false} HeadSplitsTheStream(chunks: seq<Chunk>, n: nat)
    requires n <= |chunks|
    ensures Splits(chunks, ReadFrom(chunks, n))
    decreases |chunks| - n
  {
    if FirstBlank(Bytes(chunks, n)).Some? {
      HeadNow(chunks, n);
    } else if n < |chunks| {
      HeadSplitsTheStream(chunks, n + 1);
    }
  }

  /** The result does not depend on how the stream was cut: two readings that both succeed agree on
      the head and on everything after it. */
  lemma ChunkingDoesNotMatter(chunks: seq<Chunk>, other: seq<Chunk>)
    requires Stream(chunks) == Stream(other)
    ensures var r, q := ReadFrom(chunks, 0), ReadFrom(other, 0);
            r.Head? && q.Head? ==> r.head == q.head && r.rest + Later(chunks, r.used) == q.rest + Later(other, q.used)
  {
    var r, q := ReadFrom(chunks, 0), ReadFrom(other, 0);
    HeadSplitsTheStream(chunks, 0);
    HeadSplitsTheStream(other, 0);
    if r.Head? && q.Head? {
      SameSplit(r.head, r.rest + Later(chunks, r.used), q.head, q.rest + Later(other, q.used));
    }
  }

  lemma SameSplit(a: string, x: string, b: string, y: string)
    requires |a| == |b| && a + BLANK + x == b + BLANK + y
    ensures a == b && x == y
  {
    var s := a + BLANK + x;
    assert a == s[..|a|] && b == s[..|a|] && x == s[|a| + 4..] && y == s[|a| + 4..];
  }

  /** Whether it succeeds does depend on it, near the limit: the limit is checked against the whole
      buffer, before the buffer is searched. */
  lemma {:induction false} ShortHeadsAreRead(chunks: seq<Chunk>, n: nat)
    requires n <= |chunks| && Whole(chunks)
    requires FirstBlank(Stream(chunks)).Some?
    requires FirstBlank(Stream(chunks)).value + 3 + RECV <= LIMIT || |Stream(chunks)| <= LIMIT
    ensures ReadFrom(chunks, n).Head?
    decreases |chunks| - n
  {
    hide FirstBlank, Bytes;
    if FirstBlank(Bytes(chunks, n)).None? && n < |chunks| {
      NextFits(chunks, n);
      ShortHeadsAreRead(chunks, n + 1);
    }
  }

  lemma NextFits(chunks: seq<Chunk>, n: nat)
    requires n < |chunks| && Whole(chunks) && FirstBlank(Stream(chunks)).Some? && FirstBlank(Bytes(chunks, n)).None?
    requires FirstBlank(Stream(chunks)).value + 3 + RECV <= LIMIT || |Stream(chunks)| <= LIMIT
    ensures |Bytes(chunks, n + 1)| <= LIMIT
  {
    BytesGrow(chunks, n, |chunks|);
    BytesGrow(chunks, n + 1, |chunks|);
    NoBlankMeansShort(Bytes(chunks, n), Stream(chunks));
  }

  lemma BlankAtPrefix(buf: string, s: string, i: nat)
    requires buf <= s
    ensures i + 4 <= |buf| ==> (BlankAt(buf, i) <==> BlankAt(s, i))
  {
  }

  lemma NoBlankMeansShort(buf: string, s: string)
    requires buf <= s && FirstBlank(s).Some? && FirstBlank(buf).None?
    ensures |buf| < FirstBlank(s).value + 4
  {
    var blank := FirstBlank(s).value;
    FirstBlankIsFirst(s);
    FirstBlankIsFirst(buf);
    BlankAtPrefix(buf, s, blank);
  }

  /** The stream cut into recv-sized chunks from byte i on. */
  function Cut(s: string, i: nat): (r: seq<Chunk>)
    requires i <= |s|
    ensures Whole(r)
    decreases |s| - i
  {
    if i == |s| then []
    else if |s| - i <= RECV then [Data(s[i..])]
    else [Data(s[i..i + RECV])] + Cut(s, i + RECV)
  }

  lemma {:induction false} BytesOfConcat(a: seq<Chunk>, b: seq<Chunk>, n: nat)
    requires n <= |b|
    ensures Bytes(a + b, |a| + n) == Stream(a) + Bytes(b, n)
  {
    if n == 0 {
      BytesOfPrefix(a, b, |a|);
    } else {
      BytesOfConcat(a, b, n - 1);
    }
  }

  lemma {:induction false} BytesOfPrefix(a: seq<Chunk>, b: seq<Chunk>, n: nat)
    requires n <= |a|
    ensures Bytes(a + b, n) == Bytes(a, n)
  {
    if n > 0 {
      BytesOfPrefix(a, b, n - 1);
    }
  }

  lemma StreamCons(bytes: string, chunks: seq<Chunk>)
    ensures Stream([Data(bytes)] + chunks) == bytes + Stream(chunks)
  {
    BytesOfConcat([Data(bytes)], chunks, |chunks|);
    assert Bytes([Data(bytes)], 1) == Bytes([Data(bytes)], 0) + bytes;
  }

  lemma Slices(s: string, i: nat, j: nat)
    requires i <= j <= |s|
    ensures s[i..j] + s[j..] == s[i..]
  {
  }

  lemma {:induction false} CutIsTheStream(s: string, i: nat)
    requires i <= |s|
    ensures Stream(Cut(s, i)) == s[i..]
    decreases |s| - i
  {
    if i < |s| {
      var next := if |s| - i <= RECV then |s| else i + RECV;
      var rest := Cut(s, next);
      CutIsTheStream(s, next);
      Slices(s, i, next);
      assert next == |s| ==> s[i..next] == s[i..];
      StreamCons(s[i..next], rest);
      assert Cut(s, i) == [Data(s[i..next])] + rest;
    }
  }

  lemma NoBlankInPrefix(a: string, b: string)
    requires a <= b && FirstBlank(b).None?
    ensures FirstBlank(a).None?
  {
    assert a + b[|a|..] == b;
    if FirstBlank(a).Some? {
      FirstBlankIsStable(a, b[|a|..]);
    }
  }

  lemma NoBlankBefore(s: string)
    requires FirstBlank(s).Some?
    ensures FirstBlank(s[..FirstBlank(s).value + 3]).None?
  {
    var cut := FirstBlank(s).value + 3;
    FirstBlankIsFirst(s);
    FirstBlankIsFirst(s[..cut]);
    forall j: nat
      ensures !BlankAt(s[..cut], j)
    {
      if j + 4 <= cut {
        assert s[j..j + 4] == s[..cut][j..j + 4];
        assert !BlankAt(s, j);
      }
    }
  }

  /** A successful reading stopped at an empty line and never held more than the limit. */
  lemma {:induction false} HeadStaysInLimit(chunks: seq<Chunk>, n: nat)
    requires n <= |chunks|
    ensures var r := ReadFrom(chunks, n);
            r.Head? ==>
              && FirstBlank(Bytes(chunks, r.used)).Some?
              && forall k :: n < k <= r.used ==> |Bytes(chunks, k)| <= LIMIT
    decreases |chunks| - n
  {
    hide FirstBlank, Bytes;
    if FirstBlank(Bytes(chunks, n)).None? && n < |chunks| {
      HeadStaysInLimit(chunks, n + 1);
    }
  }

  /** A reading that goes past m chunks without an empty line fails if the next one is too long. */
  lemma LongBufferFails(chunks: seq<Chunk>, n: nat, m: nat)
    requires n <= m < |chunks| && FirstBlank(Bytes(chunks, m)).None? && |Bytes(chunks, m + 1)| > LIMIT
    ensures !ReadFrom(chunks, n).Head?
  {
    hide FirstBlank;
    var r := ReadFrom(chunks, n);
    HeadStaysInLimit(chunks, n);
    if r.Head? && r.used <= m {
      NoBlankEarlier(chunks, r.used, m);
    }
  }

  lemma NoBlankEarlier(chunks: seq<Chunk>, n: nat, m: nat)
    requires n <= m <= |chunks| && FirstBlank(Bytes(chunks, m)).None?
    ensures FirstBlank(Bytes(chunks, n)).None?
  {
    BytesGrow(chunks, n, m);
    NoBlankInPrefix(Bytes(chunks, n), Bytes(chunks, m));
  }

  /** The worst cut: everything but the last byte of the empty line, then as much as one recv can
      bring. */
  function WorstCut(s: string, blank: nat): seq<Chunk>
    requires blank + 4 <= |s|
  {
    var cut := blank + 3;
    Cut(s[..cut], 0) + Cut(s, cut)
  }

  /** Exactly which streams are read however they are cut: those whose head ends a recv before the
      limit, or that fit the limit whole. */
  lemma ReadHoweverCutIff(s: string)
    requires FirstBlank(s).Some?
    ensures (forall chunks :: Whole(chunks) && Stream(chunks) == s ==> ReadFrom(chunks, 0).Head?)
            <==> FirstBlank(s).value + 3 + 65536 <= 1048576 || |s| <= 1048576
  {
    var blank := FirstBlank(s).value;
    if blank + 3 + RECV <= LIMIT || |s| <= LIMIT {
      forall chunks | Whole(chunks) && Stream(chunks) == s
        ensures ReadFrom(chunks, 0).Head?
      {
        ShortHeadsAreRead(chunks, 0);
      }
    } else {
      WorstCutFails(s);
      var w := WorstCut(s, blank);
      assert Whole(w) && Stream(w) == s && !ReadFrom(w, 0).Head?;
    }
  }

  lemma WorstCutFails(s: string)
    requires FirstBlank(s).Some? && FirstBlank(s).value + 3 + RECV > LIMIT && |s| > LIMIT
    ensures var w := WorstCut(s, FirstBlank(s).value);
            Whole(w) && Stream(w) == s && !ReadFrom(w, 0).Head?
  {
    hide FirstBlank, ReadFrom;
    var cut := FirstBlank(s).value + 3;
    var a, b := Cut(s[..cut], 0), Cut(s, cut);
    CutIsTheStream(s[..cut], 0);
    CutIsTheStream(s, cut);
    ConcatIsWhole(a, b);
    assert s[..cut] + s[cut..] == s;
    NoBlankBefore(s);
    FirstPiece(s, cut);
    LongConcatFails(a, b);
  }

  lemma FirstPiece(s: string, i: nat)
    requires i < |s|
    ensures Cut(s, i) != [] && Cut(s, i)[0].Data? && |Cut(s, i)[0].bytes| == if |s| - i <= RECV then |s| - i else RECV
  {
  }

  lemma LongConcatFails(a: seq<Chunk>, b: seq<Chunk>)
    requires b != [] && b[0].Data? && FirstBlank(Stream(a)).None? && |Stream(a)| + |b[0].bytes| > LIMIT
    ensures !ReadFrom(a + b, 0).Head?
  {
    BytesOfPrefix(a, b, |a|);
    BytesOfConcat(a, b, 1);
    assert Bytes(b, 1) == Bytes(b, 0) + b[0].bytes;
    LongBufferFails(a + b, 0, |a|);
  }

  lemma ConcatIsWhole(a: seq<Chunk>, b: seq<Chunk>)
    requires Whole(a) && Whole(b)
    ensures Whole(a + b) && Stream(a + b) == Stream(a) + Stream(b)
  {
    BytesOfConcat(a, b, |b|);
  }

  /** Why a head is not read: the first of these to happen with no empty line in the buffer. */
  predicate Fails(chunks: seq<Chunk>, n: nat, r: ReadOutcome)
    requires n <= |chunks|
  {
    && FirstBlank(Bytes(chunks, n)).None?
    && match r
       case Head(_, _, _) => false
       case Closed => n == |chunks|
       case Raised => n < |chunks| && chunks[n].Broken?
       case TooLong => n < |chunks| && chunks[n].Data? && |Bytes(chunks, n + 1)| > 1048576
  }

  /** An outcome other than a head names the first obstacle: the peer closed, recv raised, or the buffer
      outgrew the limit, and nothing of the kind before. */
  lemma {:induction false} FirstObstacle(chunks: seq<Chunk>, n: nat) returns (k: nat)
    requires n <= |chunks| && !ReadFrom(chunks, n).Head?
    ensures n <= k <= |chunks| && Fails(chunks, k, ReadFrom(chunks, n))
    ensures forall j :: n <= j < k ==> chunks[j].Data? && |Bytes(chunks, j + 1)| <= 1048576
    decreases |chunks| - n
  {
    hide FirstBlank;
    k := n;
    if n < |chunks| && chunks[n].Data? && |Bytes(chunks, n + 1)| <= LIMIT {
      k := FirstObstacle(chunks, n + 1);
    }
  }

  /******* The kindest cut *******/

  /** A buffer within the limit that holds the empty line is read. */
  lemma {:induction false} FittingBufferIsRead(chunks: seq<Chunk>, n: nat, k: nat)
    requires n <= k <= |chunks| && Whole(chunks)
    requires FirstBlank(Bytes(chunks, k)).Some? && |Bytes(chunks, k)| <= LIMIT
    ensures ReadFrom(chunks, n).Head?
    decreases k - n
  {
    hide FirstBlank, Bytes;
    if n < k && FirstBlank(Bytes(chunks, n)).None? {
      BytesGrow(chunks, n + 1, k);
      FittingBufferIsRead(chunks, n + 1, k);
    }
  }

  /** A read head, its empty line included, was in a buffer within the limit. */
  lemma ReadHeadsFit(chunks: seq<Chunk>)
    requires ReadFrom(chunks, 0).Head?
    ensures FirstBlank(Stream(chunks)).Some? && FirstBlank(Stream(chunks)).value + 4 <= LIMIT
  {
    hide FirstBlank, ReadFrom;
    var used := ReadFrom(chunks, 0).used;
    HeadStaysInLimit(chunks, 0);
    BytesThenLater(chunks, used);
    FirstBlankIsStable(Bytes(chunks, used), Later(chunks, used));
  }

  /** A recv ends right behind the empty line. */
  function KindestCut(s: string, end: nat): seq<Chunk>
    requires end <= |s|
  {
    Cut(s[..end], 0) + Cut(s, end)
  }

  lemma KindestCutIsRead(s: string)
    requires FirstBlank(s).Some? && FirstBlank(s).value + 4 <= LIMIT
    ensures var w := KindestCut(s, FirstBlank(s).value + 4);
            Whole(w) && Stream(w) == s && ReadFrom(w, 0).Head?
  {
    hide FirstBlank, Whole;
    var end := FirstBlank(s).value + 4;
    var a, b := Cut(s[..end], 0), Cut(s, end);
    CutIsTheStream(s[..end], 0);
    CutIsTheStream(s, end);
    assert s[..end][0..] == s[..end] && s[..end] + s[end..] == s;
    ConcatIsWhole(a, b);
    BytesOfPrefix(a, b, |a|);
    BlankEndsPrefix(s);
    FittingBufferIsRead(a + b, 0, |a|);
  }

  lemma BlankEndsPrefix(s: string)
    requires FirstBlank(s).Some?
    ensures FirstBlank(s[..FirstBlank(s).value + 4]).Some?
  {
    var i := FirstBlank(s).value;
    FirstBlankIsFirst(s);
    FirstBlankIsFirst(s[..i + 4]);
    assert s[..i + 4][i..i + 4] == s[i..i + 4];
    assert BlankAt(s[..i + 4], i);
  }

  /** A stream is read in some cut if and only if its head and the empty line behind it fit the limit. */
  lemma ReadSomehowIff(s: string)
    requires FirstBlank(s).Some?
    ensures (exists chunks :: Whole(chunks) && Stream(chunks) == s && ReadFrom(chunks, 0).Head?)
            <==> FirstBlank(s).value + 4 <= 1048576
  {
    hide FirstBlank, Whole, ReadFrom;
    if chunks :| Whole(chunks) && Stream(chunks) == s && ReadFrom(chunks, 0).Head? {
      ReadHeadsFit(chunks);
    }
    if FirstBlank(s).value + 4 <= LIMIT {
      KindestCutIsRead(s);
    }
  }

  /** It happens: between the two conditions a stream is read in one cut and refused in another. */
  lemma CutDecides(s: string)
    requires FirstBlank(s).Some? && LIMIT < FirstBlank(s).value + 3 + RECV && FirstBlank(s).value + 4 <= LIMIT < |s|
    ensures (exists a :: IsRead(s, a)) && (exists b :: IsRefused(s, b))
  {
    KindestCutIsRead(s);
    WorstCutFails(s);
    hide FirstBlank, Whole, ReadFrom, Stream;
    assert IsRead(s, KindestCut(s, FirstBlank(s).value + 4));
    assert IsRefused(s, WorstCut(s, FirstBlank(s).value));
  }

  predicate IsRead(s: string, chunks: seq<Chunk>) {
    Whole(chunks) && Stream(chunks) == s && ReadFrom(chunks, 0).Head?
  }

  predicate IsRefused(s: string, chunks: seq<Chunk>) {
    Whole(chunks) && Stream(chunks) == s && !ReadFrom(chunks, 0).Head?
  }
}
