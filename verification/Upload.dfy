/**
 The resumable upload: a file arrives in chunks, each possibly more than once, and the
 canister keeps a running hash and the metadata. The hash is a function of the bytes
 added so far.
 */
module Upload {
  import opened Wrappers
  import opened Metadata

  const MAX_CHUNK_SIZE := 2 * 1024 * 1024

  type Digest = Bytes -> Bytes

  /** A SHA-256 digest is written with 64 characters. */
  ghost predicate Fits(h: Digest) { forall b :: |h(b)| <= MAX_SHA256_SIZE }

  datatype Session = Session(isFirstChunk: bool, previousOffset: U64, hashed: Bytes)

  /** A call; `opens` says whether the file can be opened for writing. */
  datatype Message = Message(filename: Bytes, chunk: Bytes, chunksize: U64, offset: U64, opens: bool)

  datatype Reply = Ok(filename: Bytes, filesize: U64, sha256: Bytes) | ChunkTooLarge | CannotOpen | NoMetadata | SizeOverflow

  datatype Server = Server(sessions: map<Bytes, Session>, store: State)

  /** The session of a name; a new one has the values of its default constructor. */
  function SessionOf(s: Server, name: Bytes): Session {
    if name in s.sessions then s.sessions[name] else Session(false, 0, [])
  }

  function Opened(s: Server, m: Message): Session {
    if m.offset == 0 then Session(true, 0, []) else SessionOf(s, m.filename)
  }

  function Handle(h: Digest, s: Server, m: Message): (r: (Server, Reply)) {
    if m.chunksize > MAX_CHUNK_SIZE then (s, ChunkTooLarge)
    else
      var session := Opened(s, m);
      var s1 := s.(sessions := s.sessions[m.filename := session]);
      if !m.opens then (s1, CannotOpen)
      else if !session.isFirstChunk && m.offset == session.previousOffset then
        var found := Find(Now(s.store), m.filename);
        (s1.(store := Step(s.store, Get(m.filename))),
         if found == None then NoMetadata else Ok(m.filename, found.value.filesize, found.value.sha256))
      else if m.offset + |m.chunk| >= 0x1_0000_0000_0000_0000 then
        (s.(sessions := s.sessions[m.filename := Session(false, m.offset, session.hashed)]), SizeOverflow)
      else
        var hashed := session.hashed + m.chunk;
        (Server(s.sessions[m.filename := Session(false, m.offset, hashed)],
                Step(s.store, Update(Entry(m.filename, m.offset + |m.chunk|, h(hashed))))),
         Ok(m.filename, m.offset + |m.chunk|, h(hashed)))
  }

  class Canister {
    const hash: Digest
    const store: Store
    var uploadSessions: map<Bytes, Session>

    ghost function Abs(): Server
      reads this, store
    {
      Server(uploadSessions, store.Abs())
    }

    constructor (hash: Digest)
      ensures this.hash == hash && fresh(store) && Abs() == Server(map[], FRESH)
    {
      this.hash := hash;
      store := new Store();
      uploadSessions := map[];
    }

    method FileUploadChunk(filename: Bytes, v: Bytes, chunksize: U64, offset: U64, opens: bool) returns (r: Reply)
      modifies this, store
      ensures (Abs(), r) == Handle(hash, old(Abs()), Message(filename, v, chunksize, offset, opens))
    {
      hide Now, Step, Find;
      if chunksize > MAX_CHUNK_SIZE {
        return ChunkTooLarge;
      }
      var session := if filename in uploadSessions then uploadSessions[filename] else Session(false, 0, []);
      if offset == 0 {
        session := Session(true, 0, []);
      }
      uploadSessions := uploadSessions[filename := session];
      if !opens {
        return CannotOpen;
      }
      if !session.isFirstChunk && offset == session.previousOffset {
        var metadata := store.GetMetadata(filename);
        if metadata == None {
          return NoMetadata;
        }
        return Ok(filename, metadata.value.filesize, metadata.value.sha256);
      }
      session := session.(isFirstChunk := false, previousOffset := offset);
      uploadSessions := uploadSessions[filename := session];
      if offset > 0xFFFF_FFFF_FFFF_FFFF - |v| {
        assert uploadSessions == old(uploadSessions)[filename := session];
        return SizeOverflow;
      }
      var filesize := offset + |v|;
      session := session.(hashed := session.hashed + v);
      uploadSessions := uploadSessions[filename := session];
      assert uploadSessions == old(uploadSessions)[filename := session];
      var filesha256 := hash(session.hashed);
      store.UpdateMetadata(filename, filesize, filesha256);
      return Ok(filename, filesize, filesha256);
    }
  }

  // ----- the client's chunks

  function ChunkEnd(data: Bytes, size: nat, at: nat): nat {
    if at + size <= |data| then at + size else |data|
  }

  /** The call for the chunk that starts at `at`. */
  function Part(data: Bytes, name: Bytes, size: U64, at: U64): Message
    requires at <= |data|
  {
    Message(name, data[at..ChunkEnd(data, size, at)], size, at, true)
  }

  predicate Uploadable(data: Bytes, size: U64) {
    0 < size <= MAX_CHUNK_SIZE && |data| < 0x1_0000_0000_0000_0000
  }

  /**
   The chunks up to `upto` have arrived, the last of them starting at `from`: the
   session holds their bytes, the metadata their length and hash.
   */
  ghost predicate Progress(h: Digest, s: Server, data: Bytes, name: Bytes, from: nat, upto: nat) {
    upto > 0 ==>
      && from < upto <= |data| < 0x1_0000_0000_0000_0000
      && SessionOf(s, name) == Session(false, from, data[..upto])
      && Find(Now(s.store), name) == Some(Entry(name, upto, h(data[..upto])))
  }

  /** The metadata store is sound and has room for one more name. */
  ghost predicate Ready(s: Server) { Sound(s.store) && |Now(s.store)| + 1 < 0x1_0000_0000_0000_0000 }

  predicate ShortName(name: Bytes) { |name| <= MAX_FILENAME_SIZE }

  predicate Accepted(s: Server, m: Message) {
    && m.chunksize <= MAX_CHUNK_SIZE && m.opens && m.offset + |m.chunk| < 0x1_0000_0000_0000_0000
    && (Opened(s, m).isFirstChunk || m.offset != Opened(s, m).previousOffset)
  }

  function Added(h: Digest, s: Server, m: Message): Entry
    requires m.offset + |m.chunk| < 0x1_0000_0000_0000_0000
  {
    Entry(m.filename, m.offset + |m.chunk|, h(Opened(s, m).hashed + m.chunk))
  }

  /** What a call does to the sessions. */
  lemma SessionsAfter(h: Digest, s: Server, m: Message)
    ensures var s' := Handle(h, s, m).0;
            && (forall n :: n != m.filename ==> SessionOf(s', n) == SessionOf(s, n))
            && (Accepted(s, m) ==> SessionOf(s', m.filename) == Session(false, m.offset, Opened(s, m).hashed + m.chunk))
  {
    hide Now, Step, Find;
  }

  /** What a call does to the metadata: nothing, a lookup, or one update. */
  lemma StoreAfter(h: Digest, s: Server, m: Message)
    ensures var (s', r) := Handle(h, s, m);
            if Accepted(s, m) then
              s'.store == Step(s.store, Update(Added(h, s, m))) && r == Ok(m.filename, Added(h, s, m).filesize, Added(h, s, m).sha256)
            else s'.store == s.store || s'.store == Step(s.store, Get(m.filename))
  {
    hide Now, Step, Find;
  }

  lemma AddedFits(h: Digest, s: Server, m: Message)
    requires Fits(h) && |m.filename| < 0x1_0000_0000_0000_0000 && m.offset + |m.chunk| < 0x1_0000_0000_0000_0000
    ensures Representable(Update(Added(h, s, m)))
  {
  }

  /** A chunk that is new to its session: the bytes are hashed on, and size and hash recorded. */
  lemma Recorded(h: Digest, s: Server, m: Message, hashed: Bytes)
    requires Fits(h) && Ready(s) && ShortName(m.filename) && Accepted(s, m)
    requires hashed == Opened(s, m).hashed + m.chunk
    ensures var (s', r) := Handle(h, s, m);
            var end := m.offset + |m.chunk|;
            && SessionOf(s', m.filename) == Session(false, m.offset, hashed)
            && Find(Now(s'.store), m.filename) == Some(Entry(m.filename, end, h(hashed)))
            && r == Ok(m.filename, end, h(hashed))
  {
    hide Now, Step, Find, Sound, Handle, Fits, SessionOf, Opened, Accepted;
    InRange(s, m);
    AddedFits(h, s, m);
    SessionsAfter(h, s, m);
    StoreAfter(h, s, m);
    StepEffect(s.store, Update(Added(h, s, m)), m.filename);
  }

  /** Calls that record nothing: the reply says why, and what is recorded of any file stays. */
  lemma NotRecorded(h: Digest, s: Server, m: Message, name: Bytes)
    requires Ready(s) && !Accepted(s, m)
    ensures var (s', r) := Handle(h, s, m);
            && Find(Now(s'.store), name) == Find(Now(s.store), name)
            && (m.chunksize > 2 * 1024 * 1024 ==> r == ChunkTooLarge && s' == s)
            && (m.chunksize <= 2 * 1024 * 1024 && !m.opens ==> r == CannotOpen)
            && (m.chunksize <= 2 * 1024 * 1024 && m.opens ==>
                  var repeated := m.offset != 0 && SessionOf(s, m.filename) == Session(false, m.offset, SessionOf(s, m.filename).hashed);
                  var known := Find(Now(s.store), m.filename);
                  r == if !repeated then SizeOverflow
                       else if known == None then NoMetadata
                       else Ok(m.filename, known.value.filesize, known.value.sha256))
  {
    hide Now, Step, Find, Sound;
    StepEffect(s.store, Get(m.filename), name);
    RepeatIs(s, m);
  }

  lemma RepeatIs(s: Server, m: Message)
    ensures !Opened(s, m).isFirstChunk && m.offset == Opened(s, m).previousOffset <==>
              m.offset != 0 && SessionOf(s, m.filename) == Session(false, m.offset, SessionOf(s, m.filename).hashed)
  {
  }

  /** The next chunk is added to the hash and to the recorded size. */
  lemma NextChunk(h: Digest, s: Server, data: Bytes, name: Bytes, size: U64, from: nat, upto: nat)
    requires Fits(h) && Ready(s) && ShortName(name) && Uploadable(data, size) && upto < |data|
    requires Progress(h, s, data, name, from, upto)
    ensures var (s', r) := Handle(h, s, Part(data, name, size, upto));
            var end := ChunkEnd(data, size, upto);
            Progress(h, s', data, name, upto, end) && r == Ok(name, end, h(data[..end]))
  {
    hide Now, Step, Find, Sound, Handle, Fits;
    var end := ChunkEnd(data, size, upto);
    assert data[..upto] + data[upto..end] == data[..end];
    assert upto == 0 ==> data[..upto] == [];
    Recorded(h, s, Part(data, name, size, upto), data[..end]);
  }

  /** The first chunk, whenever it comes, starts the upload again. */
  lemma FirstChunk(h: Digest, s: Server, data: Bytes, name: Bytes, size: U64)
    requires Fits(h) && Ready(s) && ShortName(name) && Uploadable(data, size) && data != []
    ensures var (s', r) := Handle(h, s, Part(data, name, size, 0));
            var end := ChunkEnd(data, size, 0);
            Progress(h, s', data, name, 0, end) && r == Ok(name, end, h(data[..end]))
  {
    hide Now, Step, Find, Sound, Handle, Fits;
    var end := ChunkEnd(data, size, 0);
    assert [] + data[0..end] == data[..end];
    Recorded(h, s, Part(data, name, size, 0), data[..end]);
  }

  /** A repeated chunk gets the reply of its first delivery and changes nothing. */
  lemma SameChunk(h: Digest, s: Server, data: Bytes, name: Bytes, size: U64, from: nat, upto: nat)
    requires Fits(h) && Ready(s) && ShortName(name) && Uploadable(data, size)
    requires 0 < upto == ChunkEnd(data, size, from) && Progress(h, s, data, name, from, upto)
    ensures var (s', r) := Handle(h, s, Part(data, name, size, from));
            Progress(h, s', data, name, from, upto) && r == Ok(name, upto, h(data[..upto]))
  {
    hide Now, Step, Find, Sound, Fits;
    if from == 0 {
      FirstChunk(h, s, data, name, size);
    } else {
      StepEffect(s.store, Get(name), name);
    }
  }

  /** The positions at which a chunk is in order: the first one again, the last one again, or the next one. */
  predicate InOrder(from: nat, upto: nat, at: nat) { at == 0 || at == from || at == upto }

  /** What a chunk that is out of order does: its bytes are hashed behind the others, its end is recorded as the size. */
  lemma OutOfOrder(h: Digest, s: Server, data: Bytes, name: Bytes, size: U64, from: nat, upto: nat, at: nat)
    requires Fits(h) && Ready(s) && ShortName(name) && Uploadable(data, size)
    requires 0 < upto && Progress(h, s, data, name, from, upto) && at < |data| && !InOrder(from, upto, at)
    ensures var (s', r) := Handle(h, s, Part(data, name, size, at));
            var end := ChunkEnd(data, size, at);
            var hashed := data[..upto] + data[at..end];
            && SessionOf(s', name) == Session(false, at, hashed)
            && Find(Now(s'.store), name) == Some(Entry(name, end, h(hashed)))
            && r == Ok(name, end, h(hashed))
  {
    hide Now, Step, Find, Sound, Handle, Fits;
    Recorded(h, s, Part(data, name, size, at), data[..upto] + data[at..ChunkEnd(data, size, at)]);
  }

  /**
   Order matters, and exactly so far: whatever chunk of the file comes next, the canister has
   then hashed the file up to the end of that chunk if and only if the chunk is the first,
   the last one again, or the next one; and then size, hash and reply are those of the file
   so far. Any other chunk leaves the hash of a different byte string.
   */
  lemma AnyChunk(h: Digest, s: Server, data: Bytes, name: Bytes, size: U64, from: nat, upto: nat, at: nat)
    requires Fits(h) && Ready(s) && ShortName(name) && Uploadable(data, size)
    requires 0 < upto == ChunkEnd(data, size, from) && Progress(h, s, data, name, from, upto) && at < |data|
    ensures var (s', r) := Handle(h, s, Part(data, name, size, at));
            var end := ChunkEnd(data, size, at);
            && (SessionOf(s', name).hashed == data[..end] <==> InOrder(from, upto, at))
            && (InOrder(from, upto, at) ==> Progress(h, s', data, name, at, end) && r == Ok(name, end, h(data[..end])))
            && (!InOrder(from, upto, at) ==>
                  var hashed := data[..upto] + data[at..end];
                  && SessionOf(s', name).hashed == hashed
                  && Find(Now(s'.store), name) == Some(Entry(name, end, h(hashed)))
                  && r == Ok(name, end, h(hashed)))
  {
    hide Now, Step, Find, Sound, Handle, Fits;
    if at == 0 {
      FirstChunk(h, s, data, name, size);
    } else if at == from {
      SameChunk(h, s, data, name, size, from, upto);
    } else if at == upto {
      NextChunk(h, s, data, name, size, from, upto);
    } else {
      OutOfOrder(h, s, data, name, size, from, upto, at);
    }
  }

  /** An upload of another file, whatever it sends, leaves this one alone. */
  lemma OtherFile(h: Digest, s: Server, m: Message, data: Bytes, name: Bytes, from: nat, upto: nat)
    requires Fits(h) && Ready(s) && m.filename != name && |m.filename| < 0x1_0000_0000_0000_0000
    requires Progress(h, s, data, name, from, upto)
    ensures Progress(h, Handle(h, s, m).0, data, name, from, upto)
  {
    hide Now, Step, Find, Sound, Handle, Fits, Opened, Accepted;
    SessionsAfter(h, s, m);
    StoreAfter(h, s, m);
    StepEffect(s.store, Get(m.filename), name);
    if Accepted(s, m) {
      InRange(s, m);
      AddedFits(h, s, m);
      StepEffect(s.store, Update(Added(h, s, m)), name);
    }
  }

  lemma InRange(s: Server, m: Message)
    requires Accepted(s, m)
    ensures m.offset + |m.chunk| < 0x1_0000_0000_0000_0000
  {
  }

  lemma StaysSound(h: Digest, s: Server, m: Message)
    requires Fits(h) && Ready(s) && |m.filename| < 0x1_0000_0000_0000_0000
    ensures Sound(Handle(h, s, m).0.store) && |Now(Handle(h, s, m).0.store)| <= |Now(s.store)| + 1
  {
    hide Now, Step, Find, Sound, Handle, Fits, Opened, Accepted;
    StoreAfter(h, s, m);
    StepKeeps(s.store, Get(m.filename));
    if Accepted(s, m) {
      InRange(s, m);
      AddedFits(h, s, m);
      StepKeeps(s.store, Update(Added(h, s, m)));
    }
  }

  // ----- at least once is exactly once

  /**
   Calls in which the chunks of `data` for `name` come in order, each repeated any
   number of times before the next; calls for other names may come in between.
   */
  ghost predicate Schedule(msgs: seq<Message>, data: Bytes, name: Bytes, size: U64, from: nat, upto: nat)
    requires from <= upto <= |data| < 0x1_0000_0000_0000_0000
    decreases |msgs|
  {
    if msgs == [] then upto == |data|
    else
      var m := msgs[0];
      || (m.filename != name && |m.filename| < 0x1_0000_0000_0000_0000 && Schedule(msgs[1..], data, name, size, from, upto))
      || (upto > 0 && m == Part(data, name, size, from) && Schedule(msgs[1..], data, name, size, from, upto))
      || (upto < |data| && m == Part(data, name, size, upto) && Schedule(msgs[1..], data, name, size, upto, ChunkEnd(data, size, upto)))
  }

  function After(h: Digest, s: Server, msgs: seq<Message>): Server
    decreases |msgs|
  {
    if msgs == [] then s else After(h, Handle(h, s, msgs[0]).0, msgs[1..])
  }

  /** Every call for the file is answered with the size and the hash of the file up to the end of its chunk. */
  predicate Answered(h: Digest, s: Server, msgs: seq<Message>, data: Bytes, name: Bytes)
    decreases |msgs|
  {
    msgs == [] ||
    (&& (msgs[0].filename == name ==>
           var end := msgs[0].offset + |msgs[0].chunk|;
           end <= |data| && end < 0x1_0000_0000_0000_0000 && Handle(h, s, msgs[0]).1 == Ok(name, end, h(data[..end])))
     && Answered(h, Handle(h, s, msgs[0]).0, msgs[1..], data, name))
  }

  predicate InStep(data: Bytes, size: U64, from: nat, upto: nat) {
    from <= upto <= |data| && (upto > 0 ==> upto == ChunkEnd(data, size, from))
  }

  /** However often chunks are repeated and whoever else uploads, size and hash end as those of the whole file. */
  lemma {:induction false} ExactlyOnce(h: Digest, s: Server, msgs: seq<Message>, data: Bytes, name: Bytes, size: U64, from: nat, upto: nat)
    requires Fits(h) && Sound(s.store) && |Now(s.store)| + |msgs| < 0x1_0000_0000_0000_0000
    requires ShortName(name) && Uploadable(data, size) && InStep(data, size, from, upto)
    requires Progress(h, s, data, name, from, upto) && Schedule(msgs, data, name, size, from, upto)
    ensures Answered(h, s, msgs, data, name)
    ensures data != [] ==> Find(Now(After(h, s, msgs).store), name) == Some(Entry(name, |data|, h(data)))
    ensures data != [] ==> SessionOf(After(h, s, msgs), name).hashed == data
    decreases |msgs|
  {
    hide Now, Find, Sound, Handle, Fits, SessionOf;
    assert data[..|data|] == data;
    if msgs != [] {
      var m := msgs[0];
      var s' := Handle(h, s, m).0;
      StaysSound(h, s, m);
      if m.filename != name {
        OtherFile(h, s, m, data, name, from, upto);
        ExactlyOnce(h, s', msgs[1..], data, name, size, from, upto);
      } else if upto > 0 && m == Part(data, name, size, from) && Schedule(msgs[1..], data, name, size, from, upto) {
        SameChunk(h, s, data, name, size, from, upto);
        ExactlyOnce(h, s', msgs[1..], data, name, size, from, upto);
      } else {
        NextChunk(h, s, data, name, size, from, upto);
        ExactlyOnce(h, s', msgs[1..], data, name, size, upto, ChunkEnd(data, size, upto));
      }
    }
  }

  // ----- the client

  /** What becomes of one attempt: the call is lost, only its reply is lost, or the reply arrives. */
  datatype Fate = CallLost | ReplyLost | Arrives

  datatype Outcome = Matches | Mismatch | GaveUp | Refused

  const MAX_RETRIES := 10

  predicate GetsThrough(net: (nat, nat) -> Fate, at: nat) {
    exists k :: 1 <= k <= MAX_RETRIES && net(at, k) == Arrives
  }

  /** Every chunk from `at` on gets a reply in time. */
  predicate AllGetThrough(net: (nat, nat) -> Fate, data: Bytes, size: nat, at: nat)
    requires size > 0
    decreases |data| - at
  {
    at >= |data| || (GetsThrough(net, at) && AllGetThrough(net, data, size, ChunkEnd(data, size, at)))
  }

  /** One chunk, tried until a reply arrives; it is delivered at least once if one does. */
  method SendChunk(canister: Canister, data: Bytes, name: Bytes, size: U64, ghost from: nat, at: nat, net: (nat, nat) -> Fate)
    returns (reply: Option<Reply>)
    requires Fits(canister.hash) && Sound(canister.store.Abs()) && ShortName(name) && Uploadable(data, size)
    requires |Now(canister.store.Abs())| + MAX_RETRIES < 0x1_0000_0000_0000_0000
    requires at < |data| && Progress(canister.hash, canister.Abs(), data, name, from, at)
    modifies canister, canister.store
    ensures Sound(canister.store.Abs()) && |Now(canister.store.Abs())| <= old(|Now(canister.store.Abs())|) + MAX_RETRIES
    ensures reply.Some? <==> GetsThrough(net, at)
    ensures var end := ChunkEnd(data, size, at);
            reply.Some? ==>
              && reply.value == Ok(name, end, canister.hash(data[..end]))
              && Progress(canister.hash, canister.Abs(), data, name, at, end)
  {
    hide Now, Find, Sound, Handle, Fits, SessionOf, Progress;
    ghost var h, end := canister.hash, ChunkEnd(data, size, at);
    ghost var before := |Now(canister.store.Abs())|;
    ghost var delivered := false;
    var attempt := 1;
    while attempt <= MAX_RETRIES
      invariant 1 <= attempt <= MAX_RETRIES + 1
      invariant Sound(canister.store.Abs()) && |Now(canister.store.Abs())| < before + attempt
      invariant forall k :: 1 <= k < attempt ==> net(at, k) != Arrives
      invariant if delivered then Progress(h, canister.Abs(), data, name, at, end)
                else Progress(h, canister.Abs(), data, name, from, at)
    {
      if net(at, attempt) != CallLost {
        StaysSound(h, canister.Abs(), Part(data, name, size, at));
        if delivered {
          SameChunk(h, canister.Abs(), data, name, size, at, end);
        } else {
          NextChunk(h, canister.Abs(), data, name, size, from, at);
        }
        var response := canister.FileUploadChunk(name, data[at..if at + size <= |data| then at + size else |data|], size, at, true);
        delivered := true;
        if net(at, attempt) == Arrives {
          return Some(response);
        }
      }
      attempt := attempt + 1;
    }
    return None;
  }

  /**
   The whole upload. It reports a match exactly when every chunk got a reply within ten
   attempts, and then size and hash of the file are recorded; the canister never refuses.
   (An empty file has no chunk, so nothing is sent; it matches only if the digest of nothing is empty.)
   */
  method UploadFile(canister: Canister, data: Bytes, name: Bytes, size: U64, net: (nat, nat) -> Fate) returns (outcome: Outcome)
    requires Fits(canister.hash) && Sound(canister.store.Abs()) && ShortName(name) && Uploadable(data, size)
    requires |Now(canister.store.Abs())| + MAX_RETRIES * (|data| + 1) < 0x1_0000_0000_0000_0000
    modifies canister, canister.store
    ensures data != [] ==> outcome == if AllGetThrough(net, data, size, 0) then Matches else GaveUp
    ensures data == [] ==> outcome == if canister.hash([]) == [] then Matches else Mismatch
    ensures outcome == Matches && data != [] ==>
              Find(Now(canister.store.Abs()), name) == Some(Entry(name, |data|, canister.hash(data)))
  {
    hide Now, Find, Sound, Handle, Fits, SessionOf;
    ghost var before := |Now(canister.store.Abs())|;
    var offset: nat := 0;
    var canisterFilesize, canisterFilesha256 := 0, [];
    ghost var from := 0;
    while offset < |data|
      invariant offset <= |data|
      invariant Sound(canister.store.Abs()) && |Now(canister.store.Abs())| <= before + MAX_RETRIES * offset
      invariant Progress(canister.hash, canister.Abs(), data, name, from, offset)
      invariant AllGetThrough(net, data, size, 0) == AllGetThrough(net, data, size, offset)
      invariant canisterFilesize == offset
      invariant canisterFilesha256 == if offset > 0 then canister.hash(data[..offset]) else []
    {
      var result := SendChunk(canister, data, name, size, from, offset, net);
      if result == None {
        return GaveUp;
      }
      if !result.value.Ok? {
        return Refused;
      }
      canisterFilesize := result.value.filesize;
      canisterFilesha256 := result.value.sha256;
      from := offset;
      offset := if offset + size <= |data| then offset + size else |data|;
    }
    assert data[..|data|] == data;
    if canisterFilesize != |data| || canisterFilesha256 != canister.hash(data) {
      return Mismatch;
    }
    return Matches;
  }
}
