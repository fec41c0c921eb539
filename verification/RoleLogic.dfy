/** Replacing the remote user set of one role link: a single PUT, or an upload session
    of chunks that is committed or cancelled. */
module RoleLogic {
  import opened Wrappers

  const PUT_MAX_USERS := 100_000
  const CHUNK_SIZE := 100_000

  datatype ApiError = LinkNotFound | LinkDisabled | RemovalHeld | LimitReached | OtherError

  /** What becomes of one request: it takes effect and is acknowledged, it is refused
      without effect, or it takes effect and the acknowledgement is lost. */
  datatype Reply = Done | Refused(e: ApiError) | Lost

  datatype Call = Put(ids: seq<string>) | Start | Chunk(ids: seq<string>) | Commit | Cancel

  // ---- chunking ----

  /** `slice::chunks`: full chunks, then what is left. */
  function Chunks(ids: seq<string>, size: nat): seq<seq<string>>
    requires size > 0
  {
    if ids == [] then []
    else if |ids| <= size then [ids]
    else [ids[..size]] + Chunks(ids[size..], size)
  }

  function Concat(parts: seq<seq<string>>): seq<string> {
    if parts == [] then [] else parts[0] + Concat(parts[1..])
  }

  /** The chunks are non-empty, within the cap, all but the last full, and together the
      list itself. */
  lemma {:induction false} ChunksPartition(ids: seq<string>, size: nat)
    requires size > 0
    ensures Concat(Chunks(ids, size)) == ids
    ensures forall c <- Chunks(ids, size) :: 0 < |c| <= size
    ensures forall i | 0 <= i < |Chunks(ids, size)| - 1 :: |Chunks(ids, size)[i]| == size
  {
    if |ids| > size {
      ChunksPartition(ids[size..], size);
      assert ids == ids[..size] + ids[size..];
      assert Chunks(ids, size)[1..] == Chunks(ids[size..], size);
    } else if ids != [] {
      assert [ids][1..] == [];
      assert Concat([ids]) == ids + [];
    }
  }

  function ChunkCalls(parts: seq<seq<string>>): seq<Call> {
    seq(|parts|, i requires 0 <= i < |parts| => Chunk(parts[i]))
  }

  // ---- the server's side of one link ----

  function Elements(ids: seq<string>): set<string> {
    set x <- ids
  }

  // What a request's reply is taken for. A missing or disabled link, and a held removal, are told
  // apart where the program looks for them; every other refusal and a lost reply are one error.

  function PutResult(count: nat, reply: Reply): Result<nat, ApiError> {
    match reply
    case Done => Ok(count)
    case Refused(LinkNotFound) => Err(LinkNotFound)
    case Refused(LinkDisabled) => Err(LinkDisabled)
    case Refused(RemovalHeld) => Err(RemovalHeld)
    case _ => Err(OtherError)
  }

  function StartResult(reply: Reply): Result<nat, ApiError> {
    match reply
    case Done => Ok(0)
    case Refused(LinkNotFound) => Err(LinkNotFound)
    case Refused(LinkDisabled) => Err(LinkDisabled)
    case _ => Err(OtherError)
  }

  function ChunkResult(reply: Reply): Result<nat, ApiError> {
    if reply.Done? then Ok(0) else Err(OtherError)
  }

  function CommitResult(count: nat, reply: Reply): Result<nat, ApiError> {
    match reply
    case Done => Ok(count)
    case Refused(RemovalHeld) => Err(RemovalHeld)
    case _ => Err(OtherError)
  }

  /** Committing de-duplicates what was staged and swaps it in at once. */
  class RemoteLink {
    var users: set<string>
    var staged: seq<string>
    var calls: seq<Call>

    constructor (users: set<string>)
      ensures this.users == users && staged == [] && calls == []
    {
      this.users, staged, calls := users, [], [];
    }

    method PutUsers(ids: seq<string>, reply: Reply) returns (r: Result<nat, ApiError>)
      modifies this
      ensures calls == old(calls) + [Put(ids)] && staged == old(staged)
      ensures users == if reply.Refused? then old(users) else Elements(ids)
      ensures r == PutResult(|Elements(ids)|, reply)
    {
      calls := calls + [Put(ids)];
      if reply.Refused? {
        r := Err(if reply.e in {LinkNotFound, LinkDisabled, RemovalHeld} then reply.e else OtherError);
        return;
      }
      users := Elements(ids);
      r := if reply.Done? then Ok(|users|) else Err(OtherError);
    }

    method StartUpload(reply: Reply) returns (r: Result<nat, ApiError>)
      modifies this
      ensures calls == old(calls) + [Start] && users == old(users)
      ensures r.Ok? ==> staged == []
      ensures r == StartResult(reply)
    {
      calls := calls + [Start];
      if reply.Refused? {
        r := Err(if reply.e in {LinkNotFound, LinkDisabled} then reply.e else OtherError);
        return;
      }
      staged := [];
      r := if reply.Done? then Ok(0) else Err(OtherError);
    }

    method UploadChunk(ids: seq<string>, reply: Reply) returns (r: Result<nat, ApiError>)
      modifies this
      ensures calls == old(calls) + [Chunk(ids)] && users == old(users)
      ensures r.Ok? ==> staged == old(staged) + ids
      ensures r == ChunkResult(reply)
    {
      calls := calls + [Chunk(ids)];
      if !reply.Refused? {
        staged := staged + ids;
      }
      r := if reply.Done? then Ok(0) else Err(OtherError);
    }

    method CommitUpload(reply: Reply) returns (r: Result<nat, ApiError>)
      modifies this
      ensures calls == old(calls) + [Commit]
      ensures users == if reply.Refused? then old(users) else Elements(old(staged))
      ensures r == CommitResult(|Elements(old(staged))|, reply)
    {
      calls := calls + [Commit];
      if reply.Refused? {
        r := Err(if reply.e == RemovalHeld then RemovalHeld else OtherError);
        return;
      }
      users, staged := Elements(staged), [];
      r := if reply.Done? then Ok(|users|) else Err(OtherError);
    }

    method CancelUpload(reply: Reply) returns (r: Result<nat, ApiError>)
      modifies this
      ensures calls == old(calls) + [Cancel] && users == old(users)
    {
      calls := calls + [Cancel];
      if !reply.Refused? {
        staged := [];
      }
      r := if reply.Done? then Ok(0) else Err(OtherError);
    }
  }

  /** The requests of one upload: a PUT; or a session that did not open, was cancelled
      right after its first failed chunk, or carried every chunk and one commit. */
  predicate UploadTrace(ids: seq<string>, tr: seq<Call>) {
    if |ids| <= PUT_MAX_USERS then tr == [Put(ids)]
    else
      var parts := Chunks(ids, CHUNK_SIZE);
      || tr == [Start]
      || (exists k | 0 < k <= |parts| :: tr == [Start] + ChunkCalls(parts[..k]) + [Cancel])
      || tr == [Start] + ChunkCalls(parts) + [Commit]
  }

  /** The result of a session of `n` chunks: success when the start, every chunk and the commit are
      acknowledged; otherwise what the first of them to fail is taken for. */
  predicate SessionResult(n: nat, script: nat -> Reply, r: Result<nat, ApiError>) {
    && (r.Ok? <==> forall i | 0 <= i < n + 2 :: script(i) == Done)
    && (r == Err(LinkNotFound) <==> script(0) == Refused(LinkNotFound))
    && (r == Err(LinkDisabled) <==> script(0) == Refused(LinkDisabled))
    && (r == Err(RemovalHeld) <==>
          (forall i | 0 <= i < n + 1 :: script(i) == Done) && script(n + 1) == Refused(RemovalHeld))
    && r != Err(LimitReached)
  }

  /** All or nothing, for every list length and every script of replies: success means
      the remote set is the list's set; a failure leaves it as it was unless the reply to
      the one request that writes it was lost. */
  method UploadUsers(remote: RemoteLink, ids: seq<string>, script: nat -> Reply) returns (r: Result<nat, ApiError>)
    modifies remote
    ensures r.Ok? ==> remote.users == Elements(ids)
    ensures remote.users == old(remote.users) || remote.users == Elements(ids)
    ensures r.Err? && (forall i :: script(i) != Lost) ==> remote.users == old(remote.users)
    ensures r.Err? && remote.users != old(remote.users) ==> r == Err(OtherError)
    ensures old(remote.calls) <= remote.calls
    ensures UploadTrace(ids, remote.calls[|old(remote.calls)|..])
    ensures r.Err? && remote.calls[|remote.calls| - 1] == Cancel ==> remote.users == old(remote.users)
    ensures r.Ok? ==> r == Ok(|Elements(ids)|)
    ensures |ids| <= 100_000 ==>
      && (r.Ok? <==> script(0) == Done)
      && (forall e | e in {LinkNotFound, LinkDisabled, RemovalHeld} :: r == Err(e) <==> script(0) == Refused(e))
      && r != Err(LimitReached)
    ensures |ids| > 100_000 ==> SessionResult(|Chunks(ids, 100_000)|, script, r)
  {
    ghost var before, tr := remote.calls, [Put(ids)];
    if |ids| <= PUT_MAX_USERS {
      r := remote.PutUsers(ids, script(0));
    } else {
      r, tr := UploadInSession(remote, ids, script);
    }
    assert UploadTrace(ids, tr) && tr != [];
    hide UploadTrace, Elements;
    assert remote.calls[|before|..] == tr && remote.calls[|remote.calls| - 1] == tr[|tr| - 1];
  }

  /** The requests sent are `tr`. */
  method UploadInSession(remote: RemoteLink, ids: seq<string>, script: nat -> Reply)
    returns (r: Result<nat, ApiError>, ghost tr: seq<Call>)
    requires |ids| > PUT_MAX_USERS
    modifies remote
    ensures r.Ok? ==> remote.users == Elements(ids)
    ensures remote.users == old(remote.users) || remote.users == Elements(ids)
    ensures r.Err? && (forall i :: script(i) != Lost) ==> remote.users == old(remote.users)
    ensures r.Err? && remote.users != old(remote.users) ==> r == Err(OtherError)
    ensures remote.calls == old(remote.calls) + tr && UploadTrace(ids, tr) && tr != []
    ensures r.Err? && tr[|tr| - 1] == Cancel ==> remote.users == old(remote.users)
    ensures r.Ok? ==> r == Ok(|Elements(ids)|)
    ensures SessionResult(|Chunks(ids, CHUNK_SIZE)|, script, r)
  {
    hide Chunks, Concat, ChunkCalls, UploadTrace, Elements;
    var parts := Chunks(ids, CHUNK_SIZE);
    Traces(ids, parts);
    r := remote.StartUpload(script(0));
    tr := [Start];
    if r.Err? {
      return;
    }
    ghost var k;
    r, k := SendChunks(remote, parts, script);
    if r.Err? {
      tr := [Start] + ChunkCalls(parts[..k]) + [Cancel];
      assert script(k) != Done && 0 < k < |parts| + 1;
      return;
    }
    ChunksPartition(ids, CHUNK_SIZE);
    r := remote.CommitUpload(script(1 + |parts|));
    tr := [Start] + ChunkCalls(parts) + [Commit];
    assert script(|parts| + 1) == script(1 + |parts|);
  }

  /** Every chunk in order; the first that fails is followed by one cancel. */
  method SendChunks(remote: RemoteLink, parts: seq<seq<string>>, script: nat -> Reply)
    returns (r: Result<nat, ApiError>, ghost k: nat)
    requires remote.staged == []
    modifies remote
    ensures remote.users == old(remote.users)
    ensures r.Ok? ==> remote.staged == Concat(parts) && remote.calls == old(remote.calls) + ChunkCalls(parts)
    ensures r.Err? ==> 0 < k <= |parts| && remote.calls == old(remote.calls) + ChunkCalls(parts[..k]) + [Cancel]
    ensures r.Ok? ==> forall i | 1 <= i <= |parts| :: script(i) == Done
    ensures r.Err? ==> r == Err(OtherError) && script(k) != Done
  {
    hide Concat, ChunkCalls;
    Progress(parts);
    k := 0;
    r := Ok(0);
    for i := 0 to |parts|
      invariant k == i && r.Ok? && remote.users == old(remote.users)
      invariant remote.calls == old(remote.calls) + ChunkCalls(parts[..i])
      invariant remote.staged == Concat(parts[..i])
      invariant forall j | 1 <= j <= i :: script(j) == Done
    {
      r := remote.UploadChunk(parts[i], script(1 + i));
      k := i + 1;
      assert remote.calls == old(remote.calls) + ChunkCalls(parts[..i + 1]);
      if r.Err? {
        var cancelled := remote.CancelUpload(script(2 + i));
        return;
      }
    }
    assert parts[..|parts|] == parts;
  }

  lemma Traces(ids: seq<string>, parts: seq<seq<string>>)
    requires |ids| > PUT_MAX_USERS && parts == Chunks(ids, CHUNK_SIZE)
    ensures UploadTrace(ids, [Start]) && UploadTrace(ids, [Start] + ChunkCalls(parts) + [Commit])
    ensures forall k | 0 < k <= |parts| :: UploadTrace(ids, [Start] + ChunkCalls(parts[..k]) + [Cancel])
  {
    hide Chunks, ChunkCalls;
  }

  lemma Progress(parts: seq<seq<string>>)
    ensures ChunkCalls(parts[..0]) == [] && Concat(parts[..0]) == []
    ensures forall i | 0 <= i < |parts| ::
      && ChunkCalls(parts[..i + 1]) == ChunkCalls(parts[..i]) + [Chunk(parts[i])]
      && Concat(parts[..i + 1]) == Concat(parts[..i]) + parts[i]
  {
    forall i | 0 <= i < |parts|
      ensures ChunkCalls(parts[..i + 1]) == ChunkCalls(parts[..i]) + [Chunk(parts[i])]
      ensures Concat(parts[..i + 1]) == Concat(parts[..i]) + parts[i]
    {
      assert parts[..i + 1] == parts[..i] + [parts[i]];
      ConcatAppend(parts[..i], parts[i]);
    }
  }

  lemma {:induction false} ConcatAppend(parts: seq<seq<string>>, part: seq<string>)
    ensures Concat(parts + [part]) == Concat(parts) + part
  {
    if parts == [] {
      assert [part][1..] == [];
      assert [] + [part] == [part] && Concat([part]) == part + [];
    } else {
      assert (parts + [part])[1..] == parts[1..] + [part];
      ConcatAppend(parts[1..], part);
    }
  }
}
