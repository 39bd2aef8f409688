/** The byte stream that identifies a set of files: path, size and leaf digest, in path order. */
module FileFraming {
  import opened Prelude
  import opened Sorting
  import opened Texts

  type Byte = x: int | 0 <= x < 256

  type Bytes = seq<Byte>

  const NUL: Byte := 0
  const NEWLINE: Byte := 10
  const LEAF_WIDTH := 64

  datatype Entry = Entry(path: Bytes, size: nat, leaf: Bytes)

  predicate NulFree(s: Bytes) {
    NUL !in s
  }

  /** Paths hold no NUL and leaf digests are 64 characters. */
  predicate WellFormed(e: Entry) {
    NulFree(e.path) && |e.leaf| == LEAF_WIDTH
  }

  /** `str(n).encode("ascii")`. */
  function DecimalBytes(n: nat): (s: Bytes)
    ensures s != [] && NulFree(s)
  {
    var ds := Digits(n);
    seq(|ds|, i requires 0 <= i < |ds| => 48 + ds[i])
  }

  lemma DecimalBytesInjective(m: nat, n: nat)
    requires DecimalBytes(m) == DecimalBytes(n)
    ensures m == n
  {
    var ds, es := Digits(m), Digits(n);
    forall i | 0 <= i < |ds|
      ensures ds[i] == es[i]
    {
      assert DecimalBytes(m)[i] == 48 + ds[i] && DecimalBytes(n)[i] == 48 + es[i];
    }
    assert ds == es;
    DigitsInjective(m, n);
  }

  function Frame(e: Entry): Bytes {
    e.path + [NUL] + DecimalBytes(e.size) + [NUL] + e.leaf + [NEWLINE]
  }

  function Stream(entries: seq<Entry>): Bytes {
    if entries == [] then [] else Frame(entries[0]) + Stream(entries[1..])
  }

  /** One frame can be read off the front of a stream. */
  lemma CutFrame(d: Entry, x: Bytes, e: Entry, y: Bytes)
    requires WellFormed(d) && WellFormed(e) && Frame(d) + x == Frame(e) + y
    ensures d == e && x == y
  {
    var dRest, eRest := d.leaf + [NEWLINE] + x, e.leaf + [NEWLINE] + y;
    assert Frame(d) + x == d.path + [NUL] + (DecimalBytes(d.size) + [NUL] + dRest);
    assert Frame(e) + y == e.path + [NUL] + (DecimalBytes(e.size) + [NUL] + eRest);
    CutAt(d.path, NUL, DecimalBytes(d.size) + [NUL] + dRest, e.path, DecimalBytes(e.size) + [NUL] + eRest);
    CutAt(DecimalBytes(d.size), NUL, dRest, DecimalBytes(e.size), eRest);
    DecimalBytesInjective(d.size, e.size);
    assert dRest == d.leaf + ([NEWLINE] + x) && eRest == e.leaf + ([NEWLINE] + y);
    CutFixed(d.leaf, [NEWLINE] + x, e.leaf, [NEWLINE] + y);
    CutFixed([NEWLINE], x, [NEWLINE], y);
  }

  ghost predicate AllWellFormed(entries: seq<Entry>) {
    forall e :: e in entries ==> WellFormed(e)
  }

  lemma StreamEmpty(entries: seq<Entry>)
    ensures Stream(entries) == [] <==> entries == []
  {
    if entries != [] {
      assert |Stream(entries)| >= |Frame(entries[0])| > 0;
    }
  }

  /** The stream is uniquely decodable: equal streams frame equal lists. */
  lemma {:induction false} StreamInjective(a: seq<Entry>, b: seq<Entry>)
    requires AllWellFormed(a) && AllWellFormed(b) && Stream(a) == Stream(b)
    ensures a == b
    decreases |a|
  {
    StreamEmpty(a);
    StreamEmpty(b);
    if a != [] {
      CutFrame(a[0], Stream(a[1..]), b[0], Stream(b[1..]));
      assert forall e :: e in a[1..] ==> e in a;
      assert forall e :: e in b[1..] ==> e in b;
      StreamInjective(a[1..], b[1..]);
      assert a == [a[0]] + a[1..] && b == [b[0]] + b[1..];
    }
  }

  lemma {:induction false} StreamAppend(entries: seq<Entry>, e: Entry)
    ensures Stream(entries + [e]) == Stream(entries) + Frame(e)
    decreases |entries|
  {
    hide Frame;
    if entries == [] {
      assert [e][1..] == [];
      assert Stream([e]) == Frame(e) + Stream([]);
    } else {
      StreamAppend(entries[1..], e);
      assert (entries + [e])[1..] == entries[1..] + [e];
    }
  }

  // ---------------------------------------------------------------- reading the stream

  /** The part before the first `b`, or nothing if there is none. */
  function Until(s: Bytes, b: Byte): Option<Bytes> {
    if s == [] then None
    else if s[0] == b then Some([])
    else
      var rest := Until(s[1..], b);
      if rest.None? then None else Some([s[0]] + rest.value)
  }

  function ReadNumber(s: Bytes): Option<nat> {
    if s == [] then Some(0)
    else if !(48 <= s[|s| - 1] <= 57) then None
    else
      var before := ReadNumber(s[..|s| - 1]);
      if before.None? then None else Some(10 * before.value + (s[|s| - 1] - 48))
  }

  /** One frame: a path up to a NUL, a decimal size up to a NUL, a leaf of 64 characters, a newline. */
  function ReadFrame(s: Bytes): Option<(Entry, Bytes)> {
    var path := Until(s, NUL);
    if path.None? || |path.value| + 1 > |s| then None
    else
      var afterPath := s[|path.value| + 1..];
      var size := Until(afterPath, NUL);
      if size.None? || |size.value| + 1 + LEAF_WIDTH + 1 > |afterPath| || ReadNumber(size.value).None? then None
      else
        var rest := afterPath[|size.value| + 1..];
        if rest[LEAF_WIDTH] != NEWLINE then None
        else Some((Entry(path.value, ReadNumber(size.value).value, rest[..LEAF_WIDTH]), rest[LEAF_WIDTH + 1..]))
  }

  function ReadStream(s: Bytes): Option<seq<Entry>>
    decreases |s|
  {
    if s == [] then Some([])
    else
      var first := ReadFrame(s);
      if first.None? || |first.value.1| >= |s| then None
      else
        var rest := ReadStream(first.value.1);
        if rest.None? then None else Some([first.value.0] + rest.value)
  }

  lemma {:induction false} UntilReads(a: Bytes, b: Byte, x: Bytes)
    requires b !in a
    ensures Until(a + [b] + x, b) == Some(a)
    decreases |a|
  {
    var s := a + [b] + x;
    if a != [] {
      UntilReads(a[1..], b, x);
      assert s[1..] == a[1..] + [b] + x;
      assert a == [a[0]] + a[1..];
    }
  }

  lemma {:induction false} NumberReads(ds: seq<nat>, s: Bytes)
    requires |s| == |ds| && forall i :: 0 <= i < |ds| ==> ds[i] < 10 && s[i] == 48 + ds[i]
    ensures ReadNumber(s) == Some(Value(ds))
    decreases |ds|
  {
    if ds != [] {
      NumberReads(ds[..|ds| - 1], s[..|s| - 1]);
    }
  }

  lemma FrameReads(e: Entry, x: Bytes)
    requires WellFormed(e)
    ensures ReadFrame(Frame(e) + x) == Some((e, x))
  {
    var s, size := Frame(e) + x, DecimalBytes(e.size);
    var afterPath := size + [NUL] + (e.leaf + [NEWLINE] + x);
    assert s == e.path + [NUL] + afterPath;
    UntilReads(e.path, NUL, afterPath);
    assert s[|e.path| + 1..] == afterPath;
    UntilReads(size, NUL, e.leaf + [NEWLINE] + x);
    DigitsValue(e.size);
    NumberReads(Digits(e.size), size);
    var rest := afterPath[|size| + 1..];
    assert rest == e.leaf + [NEWLINE] + x;
    assert rest[..LEAF_WIDTH] == e.leaf && rest[LEAF_WIDTH + 1..] == x;
  }

  /** Reading a stream gives back the entries that were framed. */
  lemma {:induction false} StreamReads(entries: seq<Entry>)
    requires AllWellFormed(entries)
    ensures ReadStream(Stream(entries)) == Some(entries)
    decreases |entries|
  {
    hide ReadFrame;
    if entries != [] {
      assert entries[0] in entries;
      assert forall e :: e in entries[1..] ==> e in entries;
      FrameReads(entries[0], Stream(entries[1..]));
      StreamReads(entries[1..]);
      assert entries == [entries[0]] + entries[1..];
    }
  }

  // ---------------------------------------------------------------- file sets

  datatype Identity = Identity(count: nat, totalBytes: nat, stream: Bytes)

  datatype FramingError = EmptyOrRepeated

  /** Files are taken in the byte order of their paths. */
  function EntryKey(): Entry -> Key {
    (e: Entry) => Text(e.path)
  }

  function TotalBytes(entries: seq<Entry>): nat {
    if entries == [] then 0 else TotalBytes(entries[..|entries| - 1]) + entries[|entries| - 1].size
  }

  ghost predicate PathsUnique(entries: seq<Entry>) {
    forall i, j :: 0 <= i < j < |entries| ==> entries[i].path != entries[j].path
  }

  function Paths(entries: seq<Entry>): set<Bytes> {
    set e | e in entries :: e.path
  }

  /** The identity before hashing. */
  function FileSetIdentity(entries: seq<Entry>): Result<Identity, FramingError> {
    if entries == [] || |entries| != |Paths(entries)| then Err(EmptyOrRepeated)
    else
      var sorted := SortBy(entries, EntryKey());
      Ok(Identity(|sorted|, TotalBytes(sorted), Stream(sorted)))
  }

  lemma PathsGrow(entries: seq<Entry>, e: Entry)
    ensures Paths(entries + [e]) == Paths(entries) + {e.path}
    ensures e.path in Paths(entries) <==> exists i :: 0 <= i < |entries| && entries[i].path == e.path
  {
    if e.path in Paths(entries) {
      var other :| other in entries && other.path == e.path;
      var i :| 0 <= i < |entries| && entries[i] == other;
    }
  }

  lemma {:induction false} PathCount(entries: seq<Entry>)
    ensures |Paths(entries)| <= |entries|
    ensures |Paths(entries)| == |entries| ==> PathsUnique(entries)
    decreases |entries|
  {
    assert Paths([]) == {};
    hide Paths;
    if entries != [] {
      var shorter, last := entries[..|entries| - 1], entries[|entries| - 1];
      PathCount(shorter);
      assert entries == shorter + [last];
      PathsGrow(shorter, last);
    }
  }

  lemma PathsDistinguish(entries: seq<Entry>)
    requires PathsUnique(entries)
    ensures KeysDistinguish(multiset(entries), EntryKey())
  {
    var key := EntryKey();
    forall x, y | x in multiset(entries) && y in multiset(entries) && key(x) == key(y)
      ensures x == y
    {
      assert x.path == y.path;
      var i :| 0 <= i < |entries| && entries[i] == x;
      var j :| 0 <= j < |entries| && entries[j] == y;
    }
  }

  /** Two file sets have one identity exactly when they hold the same entries, in whatever order supplied. */
  lemma IdentityExactly(a: seq<Entry>, b: seq<Entry>)
    requires AllWellFormed(a) && AllWellFormed(b)
    requires FileSetIdentity(a).Ok? && FileSetIdentity(b).Ok?
    ensures FileSetIdentity(a).value.stream == FileSetIdentity(b).value.stream
       <==> multiset(a) == multiset(b)
    ensures multiset(a) == multiset(b) ==> FileSetIdentity(a) == FileSetIdentity(b)
  {
    hide Paths;
    var key := EntryKey();
    PathCount(a);
    PathsDistinguish(a);
    SortByCorrect(a, key);
    SortByCorrect(b, key);
    if multiset(a) == multiset(b) {
      SortForgetsOrder(a, b, key);
    }
    var x, y := SortBy(a, key), SortBy(b, key);
    if Stream(x) == Stream(y) {
      SortKeepsForm(a, x);
      SortKeepsForm(b, y);
      StreamInjective(x, y);
    }
  }

  lemma SortKeepsForm(a: seq<Entry>, x: seq<Entry>)
    requires AllWellFormed(a) && multiset(a) == multiset(x)
    ensures AllWellFormed(x)
  {
    forall e | e in x
      ensures WellFormed(e)
    {
      assert e in multiset(x);
      assert e in multiset(a);
    }
  }

  lemma {:induction false} DistinctPaths(entries: seq<Entry>)
    requires PathsUnique(entries)
    ensures |Paths(entries)| == |entries|
    decreases |entries|
  {
    assert Paths([]) == {};
    hide Paths;
    if entries != [] {
      var shorter, last := entries[..|entries| - 1], entries[|entries| - 1];
      DistinctPaths(shorter);
      assert entries == shorter + [last];
      PathsGrow(shorter, last);
    }
  }

  /** Inserting an entry adds its size to the total. */
  lemma {:induction false} InsertTotal(xs: seq<Entry>, x: Entry)
    ensures TotalBytes(Insert(xs, x, EntryKey())) == TotalBytes(xs) + x.size
    decreases |xs|
  {
    var key := EntryKey();
    if xs == [] || Leq(key(xs[|xs| - 1]), key(x)) {
      assert (xs + [x])[..|xs|] == xs;
    } else {
      InsertTotal(xs[..|xs| - 1], x);
      var shorter := Insert(xs[..|xs| - 1], x, key);
      assert (shorter + [xs[|xs| - 1]])[..|shorter|] == shorter;
    }
  }

  lemma {:induction false} SortTotal(xs: seq<Entry>)
    ensures TotalBytes(SortBy(xs, EntryKey())) == TotalBytes(xs)
    decreases |xs|
  {
    if xs != [] {
      SortTotal(xs[..|xs| - 1]);
      InsertTotal(SortBy(xs[..|xs| - 1], EntryKey()), xs[|xs| - 1]);
    }
  }

  /** The entries that a stream holds, in strictly ascending byte order of their paths. */
  ghost predicate HoldsInOrder(stream: Bytes, entries: seq<Entry>) {
    exists x: seq<Entry> ::
      && ReadStream(stream) == Some(x) && multiset(x) == multiset(entries)
      && forall i, j :: 0 <= i < j < |x| ==> TextLeq(x[i].path, x[j].path) && x[i].path != x[j].path
  }

  /**
   A file set is refused exactly if it is empty or repeats a path; otherwise its stream reads back as its
   entries in ascending order of paths, with their number and the sum of their sizes.
   */
  lemma IdentitySays(entries: seq<Entry>)
    requires AllWellFormed(entries)
    ensures FileSetIdentity(entries).Err? <==> entries == [] || !PathsUnique(entries)
    ensures FileSetIdentity(entries).Ok? ==>
              var id := FileSetIdentity(entries).value;
              HoldsInOrder(id.stream, entries) && id.count == |entries| && id.totalBytes == TotalBytes(entries)
  {
    hide Paths, ReadStream, Stream;
    PathCount(entries);
    if PathsUnique(entries) {
      DistinctPaths(entries);
      var x := SortBy(entries, EntryKey());
      SortByCorrect(entries, EntryKey());
      SortKeepsForm(entries, x);
      StreamReads(x);
      SortTotal(entries);
      SortedPathsDiffer(entries, x);
    }
  }

  lemma SamePaths(entries: seq<Entry>, x: seq<Entry>)
    requires multiset(x) == multiset(entries)
    ensures Paths(x) == Paths(entries)
  {
    forall e
      ensures e in x <==> e in entries
    {
      assert e in multiset(x) <==> e in multiset(entries);
    }
  }

  lemma SortedPathsDiffer(entries: seq<Entry>, x: seq<Entry>)
    requires PathsUnique(entries) && multiset(x) == multiset(entries) && |x| == |entries| && SortedBy(x, EntryKey())
    ensures forall i, j :: 0 <= i < j < |x| ==> TextLeq(x[i].path, x[j].path) && x[i].path != x[j].path
  {
    hide Paths;
    DistinctPaths(entries);
    SamePaths(entries, x);
    PathCount(x);
    forall i, j | 0 <= i < j < |x|
      ensures TextLeq(x[i].path, x[j].path)
    {
      assert Leq(EntryKey()(x[i]), EntryKey()(x[j]));
    }
  }

  /** Feeding a frame piece by piece. */
  lemma FrameInPieces(before: Bytes, e: Entry)
    ensures before + e.path + [NUL] + DecimalBytes(e.size) + [NUL] + e.leaf + [NEWLINE] == before + Frame(e)
  {
    var tail := DecimalBytes(e.size) + [NUL] + e.leaf + [NEWLINE];
    assert Frame(e) == e.path + [NUL] + tail;
    assert before + e.path + [NUL] + tail == before + Frame(e);
  }

  /** `_file_set_identity`: the bytes fed to the hash, one file after another. */
  method BuildIdentity(entries: seq<Entry>) returns (r: Result<Identity, FramingError>)
    ensures r == FileSetIdentity(entries)
  {
    var paths := SortBy(entries, EntryKey());
    if entries == [] || |entries| != |Paths(entries)| {
      return Err(EmptyOrRepeated);
    }
    var digest: Bytes := [];
    var total := 0;
    for i := 0 to |paths|
      invariant digest == Stream(paths[..i])
      invariant total == TotalBytes(paths[..i])
    {
      hide Stream, DecimalBytes, Frame;
      assert paths[..i + 1] == paths[..i] + [paths[i]];
      StreamAppend(paths[..i], paths[i]);
      total := total + paths[i].size;
      digest := digest + paths[i].path;
      digest := digest + [NUL];
      digest := digest + DecimalBytes(paths[i].size);
      digest := digest + [NUL];
      digest := digest + paths[i].leaf;
      digest := digest + [NEWLINE];
      FrameInPieces(Stream(paths[..i]), paths[i]);
    }
    assert paths[..|paths|] == paths;
    return Ok(Identity(|paths|, total, digest));
  }
}
