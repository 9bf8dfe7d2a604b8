/**
 The list of uploaded files and its copy on disk: a byte stream of 64-bit numbers and
 text, read back with limits. Every operation first loads the list from disk.
 */
module Metadata {
  import opened Sequences
  import opened Wrappers

  type Byte = b: int | 0 <= b < 256
  type Bytes = seq<Byte>
  type U64 = n: int | 0 <= n < 0x1_0000_0000_0000_0000

  const MAX_FILENAME_SIZE := 4096
  const MAX_SHA256_SIZE := 64

  datatype Entry = Entry(filename: Bytes, filesize: U64, sha256: Bytes)

  // ----- numbers in memory order, lowest byte first

  function Pow256(k: nat): (p: nat)
    ensures p > 0
  {
    if k == 0 then 1 else 256 * Pow256(k - 1)
  }

  function Put(n: nat, k: nat): (bytes: Bytes)
    ensures |bytes| == k
  {
    if k == 0 then [] else [n % 256] + Put(n / 256, k - 1)
  }

  function Got(bytes: Bytes): (n: nat)
    ensures n < Pow256(|bytes|)
  {
    if bytes == [] then 0 else bytes[0] + 256 * Got(bytes[1..])
  }

  lemma {:induction false} GotPut(n: nat, k: nat)
    requires n < Pow256(k)
    ensures Got(Put(n, k)) == n
  {
    if k > 0 {
      GotPut(n / 256, k - 1);
      assert Put(n, k)[1..] == Put(n / 256, k - 1);
    }
  }

  /** Byte i is the digit of weight 256^i: the lowest comes first. */
  lemma {:induction false} PutAt(n: nat, k: nat, i: nat)
    requires i < k
    ensures Put(n, k)[i] == n / Pow256(i) % 256
  {
    if i > 0 {
      PutAt(n / 256, k - 1, i - 1);
      DivTwice(n, Pow256(i - 1));
    } else {
      assert Pow256(0) == 1;
    }
  }

  lemma DivTwice(n: nat, d: nat)
    requires d > 0
    ensures n / 256 / d == n / (256 * d)
  {
    var q, r := n / 256, n % 256;
    var a, b := q / d, q % d;
    assert n == 256 * (d * a + b) + r == (256 * d) * a + (256 * b + r);
    assert 256 * b + r < 256 * d;
    Quotient(n, 256 * d, a, 256 * b + r);
  }

  lemma Quotient(n: nat, d: nat, q: nat, r: nat)
    requires d > 0 && n == d * q + r && r < d
    ensures n / d == q
  {
    var q', r' := n / d, n % d;
    assert d * q + r == d * q' + r';
    AtMost(d, q, q');
    AtMost(d, q', q);
  }

  lemma AtMost(d: nat, x: nat, y: nat)
    requires d > 0
    ensures d * x < d * y + d ==> x <= y
  {
    assert d * (y + 1) == d * y + d;
    assert y + 1 <= x ==> d * (y + 1) <= d * x;
  }

  lemma {:induction false} Width(k: nat)
    requires k <= 8
    ensures Pow256(k) <= 0x1_0000_0000_0000_0000 && Pow256(8) == 0x1_0000_0000_0000_0000
  {
    assert Pow256(4) == 0x1_0000_0000;
    assert Pow256(8) == 256 * (256 * (256 * (256 * Pow256(4))));
    assert k < 4 ==> Pow256(k) <= 0x1_0000_0000;
    assert 4 < k ==> Pow256(k) <= 256 * (256 * (256 * (256 * Pow256(4))));
  }

  // ----- an input stream; a read that comes short fails the stream and every later read

  datatype Stream = Stream(rest: Bytes, good: bool)

  /** A number read into a variable that was zero. */
  function GetU64(s: Stream): (r: (U64, Stream)) {
    if !s.good then (0, s)
    else if |s.rest| >= 8 then (Width(8); (Got(s.rest[..8]), Stream(s.rest[8..], true)))
    else (Width(|s.rest|); (Got(s.rest), Stream([], false)))
  }

  function Nulls(n: nat): Bytes { seq(n, _ => 0) }

  /** Text read into a string of `n` null characters. */
  function GetText(s: Stream, n: nat): (Bytes, Stream) {
    if !s.good then (Nulls(n), s)
    else if |s.rest| >= n then (s.rest[..n], Stream(s.rest[n..], true))
    else (s.rest + Nulls(n - |s.rest|), Stream([], false))
  }

  // ----- what is written and what is read

  function EntryBytes(e: Entry): Bytes {
    Put(|e.filename|, 8) + e.filename + Put(e.filesize, 8) + Put(|e.sha256|, 8) + e.sha256
  }

  function EntriesBytes(list: seq<Entry>): Bytes {
    if list == [] then [] else EntryBytes(list[0]) + EntriesBytes(list[1..])
  }

  function Saved(list: seq<Entry>): Bytes { Put(|list|, 8) + EntriesBytes(list) }

  datatype EntryRead = Corrupted | Read(entry: Entry, next: Stream)

  function ReadEntry(s: Stream): EntryRead {
    var (filenameSize, s1) := GetU64(s);
    if filenameSize > MAX_FILENAME_SIZE then Corrupted
    else
      var (filename, s2) := GetText(s1, filenameSize);
      var (filesize, s3) := GetU64(s2);
      var (sha256Size, s4) := GetU64(s3);
      if sha256Size > MAX_SHA256_SIZE then Corrupted
      else
        var (sha256, s5) := GetText(s4, sha256Size);
        Read(Entry(filename, filesize, sha256), s5)
  }

  function ReadEntries(s: Stream, count: nat): seq<Entry>
    decreases count
  {
    if count == 0 then []
    else
      match ReadEntry(s)
      case Corrupted => []
      case Read(e, s') => [e] + ReadEntries(s', count - 1)
  }

  function Loaded(bytes: Bytes): seq<Entry> {
    var (count, s) := GetU64(Stream(bytes, true));
    ReadEntries(s, count)
  }

  /** The file of one entry: the count, then name, size and hash, each text behind its length. */
  lemma SavedOne(e: Entry)
    requires |e.filename| < 256 && e.filesize < 256 && |e.sha256| < 256
    ensures Saved([e]) ==
              [1, 0, 0, 0, 0, 0, 0, 0] + [|e.filename|, 0, 0, 0, 0, 0, 0, 0] + e.filename
              + [e.filesize, 0, 0, 0, 0, 0, 0, 0] + [|e.sha256|, 0, 0, 0, 0, 0, 0, 0] + e.sha256
  {
    hide Put;
    SmallPut(1);
    SmallPut(|e.filename|);
    SmallPut(e.filesize);
    SmallPut(|e.sha256|);
    assert [e][1..] == [];
    assert EntriesBytes([e]) == EntryBytes(e) + EntriesBytes([]) == EntryBytes(e);
    assert Saved([e]) == Put(1, 8) + EntryBytes(e);
    Flat(Put(1, 8), Put(|e.filename|, 8), e.filename, Put(e.filesize, 8), Put(|e.sha256|, 8), e.sha256);
  }

  lemma Flat(a: Bytes, b: Bytes, c: Bytes, x: Bytes, y: Bytes, z: Bytes)
    ensures a + (b + c + x + y + z) == a + b + c + x + y + z
  {
  }

  lemma {:induction false} ZeroPut(k: nat)
    ensures Put(0, k) == seq(k, _ => 0)
  {
    if k > 0 {
      ZeroPut(k - 1);
    }
  }

  lemma SmallPut(n: nat)
    requires n < 256
    ensures Put(n, 8) == [n, 0, 0, 0, 0, 0, 0, 0]
  {
    ZeroPut(7);
    assert n % 256 == n && n / 256 == 0;
  }

  // ----- loading what was saved

  predicate Legal(e: Entry) { |e.filename| <= MAX_FILENAME_SIZE && |e.sha256| <= MAX_SHA256_SIZE }

  function LegalPrefix(list: seq<Entry>): (p: seq<Entry>)
    ensures p <= list && (forall i :: 0 <= i < |p| ==> Legal(p[i]))
    ensures |p| < |list| ==> !Legal(list[|p|])
  {
    if list == [] || !Legal(list[0]) then [] else [list[0]] + LegalPrefix(list[1..])
  }

  /** Lengths that a 64-bit count can hold. */
  predicate Countable(list: seq<Entry>) {
    && |list| < 0x1_0000_0000_0000_0000
    && forall e :: e in list ==> |e.filename| < 0x1_0000_0000_0000_0000 && |e.sha256| < 0x1_0000_0000_0000_0000
  }

  lemma GetPutU64(n: U64, rest: Bytes)
    ensures GetU64(Stream(Put(n, 8) + rest, true)) == (n, Stream(rest, true))
  {
    Width(8);
    GotPut(n, 8);
    var bytes := Put(n, 8) + rest;
    assert bytes[..8] == Put(n, 8) && bytes[8..] == rest;
  }

  lemma GetPutText(text: Bytes, rest: Bytes)
    ensures GetText(Stream(text + rest, true), |text|) == (text, Stream(rest, true))
  {
    assert (text + rest)[..|text|] == text && (text + rest)[|text|..] == rest;
  }

  lemma ReadWritten(e: Entry, rest: Bytes)
    requires |e.filename| < 0x1_0000_0000_0000_0000 && |e.sha256| < 0x1_0000_0000_0000_0000
    ensures ReadEntry(Stream(EntryBytes(e) + rest, true)) == if Legal(e) then Read(e, Stream(rest, true)) else Corrupted
  {
    hide Put, GetU64, GetText;
    var r4 := e.sha256 + rest;
    var r3 := Put(|e.sha256|, 8) + r4;
    var r2 := Put(e.filesize, 8) + r3;
    var r1 := e.filename + r2;
    assert EntryBytes(e) + rest == Put(|e.filename|, 8) + r1;
    GetPutU64(|e.filename|, r1);
    GetPutText(e.filename, r2);
    GetPutU64(e.filesize, r3);
    GetPutU64(|e.sha256|, r4);
    GetPutText(e.sha256, rest);
  }

  lemma {:induction false} ReadAllWritten(list: seq<Entry>)
    requires Countable(list)
    ensures ReadEntries(Stream(EntriesBytes(list), true), |list|) == LegalPrefix(list)
    decreases |list|
  {
    if list != [] {
      ReadWritten(list[0], EntriesBytes(list[1..]));
      ReadAllWritten(list[1..]);
    }
  }

  /** Loading what was saved gives the entries before the first one that breaks a limit; all of them if none does. */
  lemma LoadSaved(list: seq<Entry>)
    requires Countable(list)
    ensures Loaded(Saved(list)) == LegalPrefix(list)
  {
    GetPutU64(|list|, EntriesBytes(list));
    ReadAllWritten(list);
  }

  lemma {:induction false} AllLegal(list: seq<Entry>, more: seq<Entry>)
    requires forall e :: e in list ==> Legal(e)
    ensures LegalPrefix(list + more) == list + LegalPrefix(more)
  {
    if list == [] {
      assert list + more == more;
    } else {
      assert (list + more)[1..] == list[1..] + more;
      AllLegal(list[1..], more);
    }
  }

  // ----- the operations on the list

  function Find(list: seq<Entry>, name: Bytes): Option<Entry> {
    if list == [] then None
    else if list[0].filename == name then Some(list[0])
    else Find(list[1..], name)
  }

  function Upsert(list: seq<Entry>, e: Entry): seq<Entry> {
    if list == [] then [e]
    else if list[0].filename == e.filename then [e] + list[1..]
    else [list[0]] + Upsert(list[1..], e)
  }

  function Without(list: seq<Entry>, name: Bytes): seq<Entry> {
    if list == [] then []
    else if list[0].filename == name then list[1..]
    else [list[0]] + Without(list[1..], name)
  }

  lemma {:induction false} UpsertAt(list: seq<Entry>, i: nat, e: Entry)
    requires i < |list| && list[i].filename == e.filename
    requires forall k :: 0 <= k < i ==> list[k].filename != e.filename
    ensures Upsert(list, e) == list[i := e]
  {
    if i > 0 {
      UpsertAt(list[1..], i - 1, e);
      assert list[i := e] == [list[0]] + list[1..][i - 1 := e];
    }
  }

  lemma {:induction false} UpsertNew(list: seq<Entry>, e: Entry)
    requires forall k :: 0 <= k < |list| ==> list[k].filename != e.filename
    ensures Upsert(list, e) == list + [e]
  {
    if list != [] {
      UpsertNew(list[1..], e);
    }
  }

  lemma {:induction false} WithoutAt(list: seq<Entry>, i: nat, name: Bytes)
    requires i < |list| && list[i].filename == name
    requires forall k :: 0 <= k < i ==> list[k].filename != name
    ensures Find(list, name) == Some(list[i]) && Without(list, name) == list[..i] + list[i + 1..]
  {
    if i > 0 {
      WithoutAt(list[1..], i - 1, name);
      assert list[..i] + list[i + 1..] == [list[0]] + (list[1..][..i - 1] + list[1..][i..]);
    }
  }

  /** What is in memory and on disk. */
  datatype State = State(files: seq<Entry>, disk: Option<Bytes>)

  const FRESH := State([], None)

  /** The list that the next operation sees; without a file on disk the memory stays as it is. */
  function Now(s: State): seq<Entry> {
    match s.disk
    case None => s.files
    case Some(bytes) => Loaded(bytes)
  }

  datatype Op = Update(entry: Entry) | Get(name: Bytes) | Delete(name: Bytes) | Restart

  function Step(s: State, op: Op): State {
    match op
    case Update(e) => Written(Upsert(Now(s), e))
    case Get(_) => State(Now(s), s.disk)
    case Delete(name) => if Find(Now(s), name) == None then State(Now(s), s.disk) else Written(Without(Now(s), name))
    case Restart => State([], s.disk)
  }

  function Written(list: seq<Entry>): State { State(list, Some(Saved(list))) }

  class Store {
    var uploadedFiles: seq<Entry>
    var disk: Option<Bytes>

    function Abs(): State
      reads this
    {
      State(uploadedFiles, disk)
    }

    constructor ()
      ensures Abs() == FRESH
    {
      uploadedFiles, disk := [], None;
    }

    method Save()
      modifies `disk
      ensures Abs() == Written(old(uploadedFiles))
    {
      var file := Put(|uploadedFiles|, 8);
      for i := 0 to |uploadedFiles|
        invariant file + EntriesBytes(uploadedFiles[i..]) == Saved(uploadedFiles)
      {
        ghost var before, rest := file, uploadedFiles[i..];
        var metadata := uploadedFiles[i];
        file := file + Put(|metadata.filename|, 8);
        file := file + metadata.filename;
        file := file + Put(metadata.filesize, 8);
        file := file + Put(|metadata.sha256|, 8);
        file := file + metadata.sha256;
        assert file == before + EntryBytes(metadata);
        assert rest[0] == metadata && rest[1..] == uploadedFiles[i + 1..];
        Assoc(before, EntryBytes(metadata), EntriesBytes(rest[1..]));
      }
      assert uploadedFiles[|uploadedFiles|..] == [];
      assert file + [] == file;
      disk := Some(file);
    }

    method Load()
      modifies `uploadedFiles
      ensures Abs() == State(Now(old(Abs())), old(disk))
    {
      if disk == None {
        return;
      }
      uploadedFiles := [];
      var (count, s) := GetU64(Stream(disk.value, true));
      var i := 0;
      while i < count
        invariant 0 <= i <= count
        invariant uploadedFiles + ReadEntries(s, count - i) == Loaded(disk.value)
      {
        ghost var left := count - i;
        var (filenameSize, s1) := GetU64(s);
        if filenameSize > MAX_FILENAME_SIZE {
          break;
        }
        var (filename, s2) := GetText(s1, filenameSize);
        var (filesize, s3) := GetU64(s2);
        var (sha256Size, s4) := GetU64(s3);
        if sha256Size > MAX_SHA256_SIZE {
          break;
        }
        var (sha256, s5) := GetText(s4, sha256Size);
        ghost var e := Entry(filename, filesize, sha256);
        assert ReadEntry(s) == Read(e, s5);
        Assoc(uploadedFiles, [e], ReadEntries(s5, left - 1));
        uploadedFiles := uploadedFiles + [Entry(filename, filesize, sha256)];
        s := s5;
        i := i + 1;
      }
    }

    method UpdateMetadata(filename: Bytes, filesize: U64, sha256: Bytes)
      modifies this
      ensures Abs() == Step(old(Abs()), Update(Entry(filename, filesize, sha256)))
    {
      Load();
      ghost var e := Entry(filename, filesize, sha256);
      for i := 0 to |uploadedFiles|
        invariant Abs() == State(Now(old(Abs())), old(disk))
        invariant forall k :: 0 <= k < i ==> uploadedFiles[k].filename != filename
      {
        if uploadedFiles[i].filename == filename {
          UpsertAt(uploadedFiles, i, e);
          uploadedFiles := uploadedFiles[i := uploadedFiles[i].(filesize := filesize, sha256 := sha256)];
          Save();
          return;
        }
      }
      UpsertNew(uploadedFiles, e);
      uploadedFiles := uploadedFiles + [Entry(filename, filesize, sha256)];
      Save();
    }

    method GetMetadata(filename: Bytes) returns (r: Option<Entry>)
      modifies `uploadedFiles
      ensures Abs() == Step(old(Abs()), Get(filename))
      ensures r == Find(Now(old(Abs())), filename)
    {
      Load();
      for i := 0 to |uploadedFiles|
        invariant Find(uploadedFiles, filename) == Find(uploadedFiles[i..], filename)
      {
        if uploadedFiles[i].filename == filename {
          return Some(uploadedFiles[i]);
        }
        assert uploadedFiles[i..][1..] == uploadedFiles[i + 1..];
      }
      return None;
    }

    method DeleteMetadata(filename: Bytes)
      modifies this
      ensures Abs() == Step(old(Abs()), Delete(filename))
    {
      Load();
      for i := 0 to |uploadedFiles|
        invariant Abs() == State(Now(old(Abs())), old(disk))
        invariant forall k :: 0 <= k < i ==> uploadedFiles[k].filename != filename
      {
        if uploadedFiles[i].filename == filename {
          WithoutAt(uploadedFiles, i, filename);
          uploadedFiles := uploadedFiles[..i] + uploadedFiles[i + 1..];
          Save();
          return;
        }
      }
      FindNone(uploadedFiles, filename);
    }
  }

  // ----- whole runs

  ghost predicate Unique(list: seq<Entry>) {
    forall i, j :: 0 <= i < j < |list| ==> list[i].filename != list[j].filename
  }

  /** What every run keeps: names are unique, and what is on disk respects the limits. */
  ghost predicate Sound(s: State) {
    && (s.disk == None ==> s.files == [])
    && Unique(Now(s)) && forall e :: e in Now(s) ==> Legal(e)
  }

  predicate Representable(op: Op) {
    op.Update? ==> |op.entry.filename| < 0x1_0000_0000_0000_0000 && |op.entry.sha256| <= MAX_SHA256_SIZE
  }

  /** What an operation makes of the entry of a name; a name over the limit does not survive the disk. */
  function Effect(op: Op, name: Bytes, before: Option<Entry>): Option<Entry> {
    if op.Update? && op.entry.filename == name then if |name| <= MAX_FILENAME_SIZE then Some(op.entry) else None
    else if op.Delete? && op.name == name then None
    else before
  }

  lemma {:induction false} FindUpsert(list: seq<Entry>, e: Entry, name: Bytes)
    ensures Find(Upsert(list, e), name) == if e.filename == name then Some(e) else Find(list, name)
  {
    if list != [] && list[0].filename != e.filename {
      FindUpsert(list[1..], e, name);
    }
  }

  lemma {:induction false} FindNone(list: seq<Entry>, name: Bytes)
    ensures Find(list, name) == None <==> forall e :: e in list ==> e.filename != name
  {
    if list != [] {
      FindNone(list[1..], name);
    }
  }

  lemma {:induction false} FindWithout(list: seq<Entry>, gone: Bytes, name: Bytes)
    requires Unique(list)
    ensures Find(Without(list, gone), name) == if gone == name then None else Find(list, name)
  {
    if list != [] {
      if list[0].filename == gone {
        FindNone(list[1..], gone);
      } else {
        FindWithout(list[1..], gone, name);
      }
    }
  }

  /** Updating keeps the other names where they are, and adds the new one at the end. */
  lemma {:induction false} UpsertKeeps(list: seq<Entry>, e: Entry)
    requires Unique(list)
    ensures Unique(Upsert(list, e)) && |Upsert(list, e)| <= |list| + 1
    ensures forall x :: x in Upsert(list, e) ==> x == e || (x in list && x.filename != e.filename)
    ensures (forall x :: x in list ==> x.filename != e.filename) ==> Upsert(list, e) == list + [e]
  {
    if list != [] && list[0].filename != e.filename {
      UpsertKeeps(list[1..], e);
    }
  }

  lemma HeadIsNew(list: seq<Entry>, rest: seq<Entry>)
    requires list != [] && Unique(list) && Unique(rest)
    requires forall x :: x in rest ==> x in list[1..]
    ensures Unique([list[0]] + rest)
  {
    forall j | 0 <= j < |rest| ensures rest[j].filename != list[0].filename {
      assert rest[j] in list[1..];
      var k :| 0 <= k < |list[1..]| && list[1..][k] == rest[j];
      assert list[k + 1] == rest[j];
    }
  }

  lemma {:induction false} WithoutKeeps(list: seq<Entry>, gone: Bytes)
    requires Unique(list)
    ensures Unique(Without(list, gone)) && |Without(list, gone)| <= |list|
    ensures forall x :: x in Without(list, gone) ==> x in list
  {
    if list != [] && list[0].filename != gone {
      WithoutKeeps(list[1..], gone);
      HeadIsNew(list, Without(list[1..], gone));
    }
  }

  lemma LegalStays(list: seq<Entry>)
    requires forall e :: e in list ==> Legal(e)
    ensures LegalPrefix(list) == list
  {
    AllLegal(list, []);
    assert list + [] == list;
  }

  /** An update goes to disk and comes back; a name over the limit is dropped, and nothing else with it. */
  lemma UpdateReloaded(s: State, e: Entry)
    requires Sound(s) && |Now(s)| + 1 < 0x1_0000_0000_0000_0000 && Representable(Update(e))
    ensures Now(Step(s, Update(e))) == if |e.filename| <= 4096 then Upsert(Now(s), e) else Now(s)
  {
    hide Upsert, Find;
    var list := Now(s);
    UpsertKeeps(list, e);
    LoadSaved(Upsert(list, e));
    if |e.filename| <= MAX_FILENAME_SIZE {
      LegalStays(Upsert(list, e));
    } else {
      AllLegal(list, [e]);
      assert list + [] == list;
    }
  }

  lemma DeleteReloaded(s: State, name: Bytes)
    requires Sound(s) && |Now(s)| < 0x1_0000_0000_0000_0000
    ensures Now(Step(s, Delete(name))) == if Find(Now(s), name) == None then Now(s) else Without(Now(s), name)
  {
    var list := Now(s);
    WithoutKeeps(list, name);
    LoadSaved(Without(list, name));
    LegalStays(Without(list, name));
  }

  lemma StepKeeps(s: State, op: Op)
    requires Sound(s) && |Now(s)| + 1 < 0x1_0000_0000_0000_0000 && Representable(op)
    ensures Sound(Step(s, op)) && |Now(Step(s, op))| <= |Now(s)| + 1
    ensures forall name :: Find(Now(Step(s, op)), name) == Effect(op, name, Find(Now(s), name))
  {
    forall name ensures Find(Now(Step(s, op)), name) == Effect(op, name, Find(Now(s), name)) {
      StepEffect(s, op, name);
    }
    match op
    case Update(e) => UpdateReloaded(s, e); UpsertKeeps(Now(s), e);
    case Delete(name) => DeleteReloaded(s, name); WithoutKeeps(Now(s), name);
    case _ =>
  }

  lemma StepEffect(s: State, op: Op, name: Bytes)
    requires Sound(s) && |Now(s)| + 1 < 0x1_0000_0000_0000_0000 && Representable(op)
    ensures Find(Now(Step(s, op)), name) == Effect(op, name, Find(Now(s), name))
  {
    match op
    case Update(e) =>
      UpdateReloaded(s, e);
      FindUpsert(Now(s), e, name);
      FindNone(Now(s), e.filename);
    case Delete(gone) =>
      DeleteReloaded(s, gone);
      FindWithout(Now(s), gone, name);
    case _ =>
  }

  function Run(s: State, ops: seq<Op>): State {
    if ops == [] then s else Step(Run(s, ops[..|ops| - 1]), ops[|ops| - 1])
  }

  /** The last update of a name that no deletion has followed. */
  function Latest(ops: seq<Op>, name: Bytes): Option<Entry> {
    if ops == [] then None else Effect(ops[|ops| - 1], name, Latest(ops[..|ops| - 1], name))
  }

  /** After every run, through disk and restarts, names are unique and a lookup finds the last update not deleted since. */
  lemma {:induction false} LastUpdateWins(ops: seq<Op>, name: Bytes)
    requires |ops| < 0x1_0000_0000_0000_0000 && forall i :: 0 <= i < |ops| ==> Representable(ops[i])
    ensures Sound(Run(FRESH, ops)) && |Now(Run(FRESH, ops))| <= |ops|
    ensures Find(Now(Run(FRESH, ops)), name) == Latest(ops, name)
    decreases |ops|
  {
    if ops != [] {
      var k := |ops| - 1;
      LastUpdateWins(ops[..k], name);
      StepKeeps(Run(FRESH, ops[..k]), ops[k]);
    }
  }
}
