/**
 The requests of one P4Runtime session: gated writes, batched writes, bounded
 reads and pipeline re-verification.  What the shared flag and the target answer
 is fixed by `Env`, indexed by how often they have been asked; every contract
 holds for every environment.
 */
module SessionIo {
  import opened Prelude

  datatype Update = Update(payload: seq<nat>)
  datatype Entity = Entity(payload: seq<nat>)

  /** The configured bounds this component uses. */
  datatype Bounds = Bounds(
    updatesPerWrite: nat, entitiesPerRead: nat, readBytes: nat, readEntities: nat, baselineRules: nat, overlayRules: nat)

  function Max(a: nat, b: nat): nat { if a < b then b else a }

  predicate BoundsValid(b: Bounds) {
    && 1 <= b.updatesPerWrite <= 256 && 1 <= b.entitiesPerRead <= 256
    && 1024 <= b.readBytes <= 1_048_576 && 1 <= b.readEntities <= 4096
    && 1 <= b.baselineRules <= 4096 && 1 <= b.overlayRules <= 1024
    && Max(Max(b.entitiesPerRead, b.baselineRules), b.overlayRules) <= b.readEntities
  }

  datatype IoError =
    | NotPrimary | PipelineDrift | P4InfoDrift | CapabilityDrift | InvalidDigest | InvalidCount
    | Deadline | Remote | TooManyBytes | TooManyEntities | PipelineReadFailed

  datatype Reply = Accepted | Rejected | Late

  datatype Env = Env(primary: nat -> bool, reply: nat -> Reply)

  // ----- batches -----

  /** The input cut into pieces of `n`, the last one possibly shorter. */
  function Chunks(updates: seq<Update>, n: nat): seq<seq<Update>>
    requires n > 0
    decreases |updates|
  {
    if updates == [] then []
    else if |updates| <= n then [updates]
    else [updates[..n]] + Chunks(updates[n..], n)
  }

  function Joined(batches: seq<seq<Update>>): seq<Update> {
    if batches == [] then [] else batches[0] + Joined(batches[1..])
  }

  lemma {:induction false} ChunksCover(updates: seq<Update>, n: nat)
    requires n > 0
    ensures Joined(Chunks(updates, n)) == updates
    ensures forall i :: 0 <= i < |Chunks(updates, n)| ==> 1 <= |Chunks(updates, n)[i]| <= n
    ensures forall i :: 0 <= i < |Chunks(updates, n)| - 1 ==> |Chunks(updates, n)[i]| == n
    decreases |updates|
  {
    if updates == [] {
    } else if |updates| <= n {
      assert [updates][1..] == [] && updates + [] == updates;
    } else {
      var head, rest := updates[..n], updates[n..];
      ChunksCover(rest, n);
      var all := Chunks(updates, n);
      assert all[1..] == Chunks(rest, n);
      assert head + rest == updates;
      assert forall i :: 1 <= i < |all| ==> all[i] == all[1..][i - 1];
    }
  }

  // ----- pipeline identity -----

  datatype Pipeline = Pipeline(
    p4info: string, deviceConfig: string, profile: string, cookie: nat, atomicity: seq<int>)

  /** First disagreement in the order the fields are compared; `isDigest` recognises a well-formed SHA-256. */
  function ComparePipeline(expected: Pipeline, observed: Pipeline, isDigest: string -> bool): Option<IoError> {
    if !isDigest(expected.p4info) then Some(InvalidDigest)
    else if expected.p4info != observed.p4info then Some(P4InfoDrift)
    else if !isDigest(expected.deviceConfig) then Some(InvalidDigest)
    else if expected.deviceConfig != observed.deviceConfig then Some(PipelineDrift)
    else if !isDigest(expected.profile) then Some(InvalidDigest)
    else if expected.profile != observed.profile then Some(CapabilityDrift)
    else if expected.cookie == 0 || expected.cookie != observed.cookie then Some(PipelineDrift)
    else if expected.atomicity != observed.atomicity then Some(CapabilityDrift)
    else None
  }

  /** Exactness means equality of the whole identity, not of a summary of it. */
  lemma ExactMeansEqual(expected: Pipeline, observed: Pipeline, isDigest: string -> bool)
    ensures ComparePipeline(expected, observed, isDigest).None? <==>
      && expected == observed && expected.cookie != 0
      && isDigest(expected.p4info) && isDigest(expected.deviceConfig) && isDigest(expected.profile)
  {
  }

  // ----- bounded reads -----

  const USIZE_MAX: nat := 0xFFFF_FFFF_FFFF_FFFF

  function SaturatingAdd(a: nat, b: nat): nat { if a + b > USIZE_MAX then USIZE_MAX else a + b }

  /** One message of a read response stream, or the error that ends it. */
  datatype Response = Response(entities: seq<Entity>, encodedLen: nat) | ReadFailed | ReadLate

  function Gathered(rs: seq<Response>): seq<Entity> {
    if rs == [] then []
    else Gathered(rs[..|rs| - 1]) + if rs[|rs| - 1].Response? then rs[|rs| - 1].entities else []
  }

  function TotalBytes(rs: seq<Response>): nat {
    if rs == [] then 0
    else TotalBytes(rs[..|rs| - 1]) + if rs[|rs| - 1].Response? then rs[|rs| - 1].encodedLen else 0
  }

  lemma {:induction false} TotalsGrow(rs: seq<Response>, k: nat)
    requires k <= |rs|
    ensures TotalBytes(rs[..k]) <= TotalBytes(rs) && |Gathered(rs[..k])| <= |Gathered(rs)|
  {
    if k == |rs| {
      assert rs[..k] == rs;
    } else {
      TotalsGrow(rs[..|rs| - 1], k);
      assert rs[..|rs| - 1][..k] == rs[..k];
    }
  }

  predicate AllArrived(rs: seq<Response>) { forall i :: 0 <= i < |rs| ==> rs[i].Response? }

  /** Message `k` is the one at which reading stops with `e`; everything before it was within both bounds. */
  predicate StopsAt(rs: seq<Response>, k: nat, b: Bounds, e: IoError) {
    && k < |rs| && AllArrived(rs[..k])
    && TotalBytes(rs[..k]) <= b.readBytes && |Gathered(rs[..k])| <= b.readEntities
    && match rs[k]
       case ReadFailed => e == Remote
       case ReadLate => e == Deadline
       case Response(_, _) =>
         if TotalBytes(rs[..k + 1]) > b.readBytes then e == TooManyBytes
         else |Gathered(rs[..k + 1])| > b.readEntities && e == TooManyEntities
  }

  /** The accumulation loop, over whatever the target streams back. */
  method CollectResponses(b: Bounds, rs: seq<Response>) returns (r: Result<seq<Entity>, IoError>)
    requires BoundsValid(b) && forall i :: 0 <= i < |rs| && rs[i].Response? ==> |rs[i].entities| <= USIZE_MAX
    ensures r.Ok? <==> AllArrived(rs) && TotalBytes(rs) <= b.readBytes && |Gathered(rs)| <= b.readEntities
    ensures r.Ok? ==> r.value == Gathered(rs)
    ensures r.Err? ==> exists k: nat :: StopsAt(rs, k, b, r.error)
  {
    var result: seq<Entity>, bytes: nat, count: nat, i := [], 0, 0, 0;
    while i < |rs|
      invariant 0 <= i <= |rs| && AllArrived(rs[..i])
      invariant bytes == TotalBytes(rs[..i]) <= b.readBytes
      invariant result == Gathered(rs[..i]) && count == |result| <= b.readEntities
    {
      assert rs[..i + 1][..i] == rs[..i];
      TotalsGrow(rs, i + 1);
      match rs[i] {
        case ReadFailed =>
          assert StopsAt(rs, i, b, Remote);
          return Err(Remote);
        case ReadLate =>
          assert StopsAt(rs, i, b, Deadline);
          return Err(Deadline);
        case Response(entities, encodedLen) =>
          bytes := SaturatingAdd(bytes, encodedLen);
          if bytes > b.readBytes {
            assert StopsAt(rs, i, b, TooManyBytes);
            return Err(TooManyBytes);
          }
          count := SaturatingAdd(count, |entities|);
          if count > b.readEntities {
            assert StopsAt(rs, i, b, TooManyEntities);
            return Err(TooManyEntities);
          }
          result := result + entities;
      }
      i := i + 1;
    }
    assert rs[..i] == rs;
    return Ok(result);
  }

  /** A reply no larger than the qualified table capacity never trips the entity bound. */
  lemma QualifiedRepliesFit(b: Bounds, rs: seq<Response>, k: nat)
    requires BoundsValid(b) && |Gathered(rs)| <= Max(b.baselineRules, b.overlayRules)
    ensures !StopsAt(rs, k, b, TooManyEntities)
  {
    if k < |rs| {
      TotalsGrow(rs, k + 1);
    }
  }

  class P4Session {
    const bounds: Bounds
    const env: Env
    var pipelineExact: bool
    var observed: Pipeline
    var gateReads: nat                       // times the primary flag was loaded
    var attempted: seq<seq<Update>>          // write requests sent
    var accepted: seq<seq<Update>>           // write requests the target confirmed

    constructor (b: Bounds, e: Env, p: Pipeline)
      ensures bounds == b && env == e && pipelineExact && observed == p
      ensures gateReads == 0 && attempted == [] && accepted == []
    {
      bounds, env, pipelineExact, observed := b, e, true, p;
      gateReads, attempted, accepted := 0, [], [];
    }

    /** The gate as the next write will see it. */
    predicate GateOpen()
      reads this
    {
      env.primary(gateReads) && pipelineExact
    }

    /** One write request; nothing is sent unless the gate is open and the count is within bounds. */
    method Write(updates: seq<Update>) returns (r: Result<(), IoError>)
      modifies this
      ensures gateReads == old(gateReads) + 1
      ensures pipelineExact == old(pipelineExact) && observed == old(observed)
      ensures r.Ok? <==>
        old(GateOpen()) && 1 <= |updates| <= bounds.updatesPerWrite && env.reply(old(|attempted|)) == Accepted
      ensures !(old(GateOpen()) && 1 <= |updates| <= bounds.updatesPerWrite) ==> attempted == old(attempted)
      ensures old(GateOpen()) && 1 <= |updates| <= bounds.updatesPerWrite ==> attempted == old(attempted) + [updates]
      ensures accepted == if r.Ok? then old(accepted) + [updates] else old(accepted)
    {
      var primary := env.primary(gateReads);
      gateReads := gateReads + 1;
      if !primary {
        return Err(NotPrimary);
      }
      if !pipelineExact {
        return Err(PipelineDrift);
      }
      if |updates| == 0 || |updates| > bounds.updatesPerWrite {
        return Err(InvalidCount);
      }
      attempted := attempted + [updates];
      match env.reply(|attempted| - 1) {
        case Late => return Err(Deadline);
        case Rejected => return Err(Remote);
        case Accepted =>
      }
      accepted := accepted + [updates];
      return Ok(());
    }

    /** What a sequence of requests that stops after `k` accepted ones may have done. */
    twostate predicate StoppedAfter(batches: seq<seq<Update>>, k: nat)
      reads this
    {
      && k <= |batches| && accepted == old(accepted) + batches[..k]
      && (attempted == old(attempted) + batches[..k] || (k < |batches| && attempted == old(attempted) + batches[..k + 1]))
    }

    /** The request loop: stop at the first request that fails. */
    method WriteEach(batches: seq<seq<Update>>) returns (r: Result<(), IoError>, ghost k: nat)
      modifies this
      ensures StoppedAfter(batches, k) && (r.Ok? <==> k == |batches|)
      ensures gateReads == old(gateReads) + k + if r.Ok? then 0 else 1
      ensures pipelineExact == old(pipelineExact) && (attempted != old(attempted) ==> pipelineExact)
      ensures forall g :: old(gateReads) <= g < old(gateReads) + |attempted| - |old(attempted)| ==> env.primary(g)
    {
      k := 0;
      for i := 0 to |batches|
        invariant k == i && accepted == old(accepted) + batches[..i] && attempted == old(attempted) + batches[..i]
        invariant gateReads == old(gateReads) + i && pipelineExact == old(pipelineExact)
        invariant i > 0 ==> pipelineExact
        invariant forall g :: old(gateReads) <= g < old(gateReads) + i ==> env.primary(g)
      {
        assert batches[..i + 1] == batches[..i] + [batches[i]];
        var one := Write(batches[i]);
        if one.Err? {
          return Err(one.error), k;
        }
        k := k + 1;
      }
      return Ok(()), k;
    }

    /**
     Any number of updates as bounded requests.  On failure at batch `k` exactly the
     batches before it were accepted and none after it was tried; every request sent
     saw the flag set and the pipeline exact.
     */
    method WriteBatched(updates: seq<Update>) returns (r: Result<(), IoError>, ghost k: nat)
      requires BoundsValid(bounds)
      modifies this
      ensures StoppedAfter(Chunks(updates, bounds.updatesPerWrite), k)
      ensures r.Ok? <==> updates != [] && k == |Chunks(updates, bounds.updatesPerWrite)|
      ensures gateReads == old(gateReads) + k + if r.Ok? || updates == [] then 0 else 1
      ensures pipelineExact == old(pipelineExact) && (attempted != old(attempted) ==> pipelineExact)
      ensures forall g :: old(gateReads) <= g < old(gateReads) + |attempted| - |old(attempted)| ==> env.primary(g)
    {
      if updates == [] {
        return Err(InvalidCount), 0;
      }
      r, k := WriteEach(Chunks(updates, bounds.updatesPerWrite));
    }

    /** Read bounded entities; `rs` is what the target streams back. */
    method Read(entities: seq<Entity>, answer: Reply, rs: seq<Response>) returns (r: Result<seq<Entity>, IoError>)
      requires BoundsValid(bounds) && forall i :: 0 <= i < |rs| && rs[i].Response? ==> |rs[i].entities| <= USIZE_MAX
      ensures r.Ok? <==>
        && 1 <= |entities| <= bounds.entitiesPerRead && answer == Accepted
        && AllArrived(rs) && TotalBytes(rs) <= bounds.readBytes && |Gathered(rs)| <= bounds.readEntities
      ensures r.Ok? ==> r.value == Gathered(rs)
    {
      if |entities| == 0 || |entities| > bounds.entitiesPerRead {
        return Err(InvalidCount);
      }
      match answer {
        case Late => return Err(Deadline);
        case Rejected => return Err(Remote);
        case Accepted =>
      }
      r := CollectResponses(bounds, rs);
    }

    /** Re-read the pipeline; a failed read leaves the last verdict standing, a mismatch closes the write gate. */
    method ReverifyPipeline(expected: Pipeline, readback: Option<Pipeline>, isDigest: string -> bool)
      returns (r: Result<(), IoError>)
      modifies this
      ensures r.Ok? ==> readback == Some(expected) && pipelineExact && observed == expected
      ensures readback.None? ==> r.Err? && pipelineExact == old(pipelineExact)
      ensures readback.Some? ==> pipelineExact == r.Ok?
      ensures r.Err? ==> observed == old(observed)
      ensures gateReads == old(gateReads) && attempted == old(attempted) && accepted == old(accepted)
    {
      if readback.None? {
        return Err(PipelineReadFailed);
      }
      var mismatch := ComparePipeline(expected, readback.value, isDigest);
      ExactMeansEqual(expected, readback.value, isDigest);
      if mismatch.Some? {
        pipelineExact := false;
        return Err(mismatch.value);
      }
      pipelineExact, observed := true, readback.value;
      return Ok(());
    }
  }

  /** Scan every pair of private-key paths. */
  method EnsureDistinctPaths(paths: seq<string>) returns (ok: bool)
    ensures ok <==> forall i, j :: 0 <= i < j < |paths| ==> paths[i] != paths[j]
  {
    for left := 0 to |paths|
      invariant forall i, j :: 0 <= i < left && i < j < |paths| ==> paths[i] != paths[j]
    {
      for right := left + 1 to |paths|
        invariant forall j :: left < j < right ==> paths[left] != paths[j]
      {
        if paths[left] == paths[right] {
          return false;
        }
      }
    }
    return true;
  }
}
