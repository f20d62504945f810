/** One-shot write tokens: what an observation binds, and that it authorizes one write. */
module Tokens {
  import opened Common

  /** Filesystem identity of one file revision: inode, length and change times. */
  datatype Stamp = Stamp(ino: nat, length: nat, changed: int)

  /** What `lstat` finds. Only a regular file has a stamp: none is captured for links and
      special files, so no token matches them. */
  datatype Lookup = NotFound | Failed | LinkOrSpecial | Regular(stamp: Stamp)

  datatype Read = Complete(bytes: Bytes) | Refused

  /** The evidence a token carries, without its gate. */
  datatype Evidence = Evidence(sha: Digest, length: nat, present: bool, identity: Option<Stamp>)

  const ABSENT := Evidence(Sha256([]), 0, false, None)

  /** `load_workspace_profile_snapshot`: `lstat`, bounded read, `lstat` again. `None` is a
      snapshot that mints no token. */
  function LoadSnapshot(before: Lookup, read: Read, after: Lookup): Option<Evidence> {
    match before
    case NotFound => Some(ABSENT)
    case Failed => None
    case LinkOrSpecial => None
    case Regular(stamp) =>
      if read.Refused? || after != before then None
      else Some(Evidence(Sha256(read.bytes), |read.bytes|, true, Some(stamp)))
  }

  /** `observe_file_for_write`: `lstat`, then a read whose length must agree with it. */
  function ObserveFile(before: Lookup, read: Read, maxBytes: nat): Option<Evidence> {
    match before
    case NotFound => Some(ABSENT)
    case Failed => None
    case LinkOrSpecial => None
    case Regular(stamp) =>
      if stamp.length > maxBytes || read.Refused? || |read.bytes| != stamp.length then None
      else Some(Evidence(Sha256(read.bytes), |read.bytes|, true, Some(stamp)))
  }

  function MatchesBytes(t: Evidence, bytes: Option<Bytes>): bool {
    match bytes
    case None => !t.present
    case Some(b) => t.present && t.length == |b| && t.sha == Sha256(b)
  }

  function MatchesPath(t: Evidence, now: Lookup, bytes: Option<Bytes>): bool {
    && MatchesBytes(t, bytes)
    && match (t.identity, bytes)
       case (None, None) => now.NotFound?
       case (Some(stamp), Some(_)) => now == Regular(stamp)
       case _ => false
  }

  /** Evidence that some observation minted. */
  ghost predicate Minted(t: Evidence) {
    || (exists before, read, after :: LoadSnapshot(before, read, after) == Some(t))
    || (exists before, read, maxBytes: nat :: ObserveFile(before, read, maxBytes) == Some(t))
  }

  /** A minted token matches exactly one content, and with it exactly one state of the
      path: the observed bytes under the observed identity, or absence that is still
      absence. An absent observation never matches a present file, not even an empty
      one. */
  lemma TokenBindsOneRevision(t: Evidence, now: Lookup, bytes: Option<Bytes>)
    requires Minted(t)
    ensures t.present <==> t.identity.Some?
    ensures MatchesPath(t, now, bytes) <==>
              if t.present then bytes == Some(t.sha.preimage) && now == Regular(t.identity.value)
              else bytes == None && now == NotFound
    ensures !t.present ==> !MatchesBytes(t, Some([]))
  {}

  /** A profile token is minted exactly when the path is absent, or the same regular file
      before and after a complete read; and it holds exactly those bytes. */
  lemma SnapshotMintsIff(before: Lookup, read: Read, after: Lookup)
    ensures LoadSnapshot(before, read, after).Some? <==>
              before.NotFound? || (before.Regular? && read.Complete? && after.Regular? && after.stamp == before.stamp)
    ensures before.Regular? && LoadSnapshot(before, read, after).Some? ==>
              MatchesPath(LoadSnapshot(before, read, after).value, after, Some(read.bytes))
    ensures before.NotFound? ==> LoadSnapshot(before, read, after) == Some(ABSENT)
  {}

  /** A file token is minted exactly when the path is absent, or a regular file within the
      bound that is read with the length it was seen to have; and it holds those bytes. */
  lemma ObservationMintsIff(before: Lookup, read: Read, maxBytes: nat)
    ensures ObserveFile(before, read, maxBytes).Some? <==>
              before.NotFound? || (before.Regular? && read.Complete? && |read.bytes| == before.stamp.length <= maxBytes)
    ensures before.Regular? && ObserveFile(before, read, maxBytes).Some? ==>
              MatchesPath(ObserveFile(before, read, maxBytes).value, before, Some(read.bytes))
    ensures before.NotFound? ==> ObserveFile(before, read, maxBytes) == Some(ABSENT)
  {}

  // ---- the gate ----

  /** The flag that all tokens of one observation share. */
  class Gate {
    var consumed: bool

    constructor ()
      ensures !consumed
    {
      consumed := false;
    }

    /** `swap(true)`, and equally `compare_exchange(false, true)`: one atomic step. */
    method Consume() returns (ok: bool)
      modifies this
      ensures consumed && (ok <==> !old(consumed))
    {
      ok := !consumed;
      consumed := true;
    }
  }

  /** A token or a clone of one: the same evidence and the same gate. */
  datatype Token = Token(evidence: Evidence, gate: Gate)

  function Successes(attempts: seq<Gate>, results: seq<bool>, gate: Gate): nat
    requires |attempts| == |results|
  {
    if attempts == [] then 0
    else
      var n := |attempts| - 1;
      Successes(attempts[..n], results[..n], gate) + if attempts[n] == gate && results[n] then 1 else 0
  }

  lemma OneMoreAttempt(attempts: seq<Gate>, results: seq<bool>, next: Gate, ok: bool, gate: Gate)
    requires |attempts| == |results|
    ensures Successes(attempts + [next], results + [ok], gate)
            == Successes(attempts, results, gate) + if next == gate && ok then 1 else 0
  {
    assert (attempts + [next])[..|attempts|] == attempts && (results + [ok])[..|attempts|] == results;
  }

  lemma NoAttempt()
    ensures forall gate: Gate :: Successes([], [], gate) == 0
  {}

  function GatesOf(tokens: seq<Token>): seq<Gate> {
    seq(|tokens|, i requires 0 <= i < |tokens| => tokens[i].gate)
  }

  /** Any interleaving of attempts by any tokens and clones: for each observation that
      was still unused, exactly one attempt succeeds if there is any, and it is the
      first; a used one admits none. */
  method ConsumeInOrder(tokens: seq<Token>) returns (results: seq<bool>)
    modifies set i | 0 <= i < |tokens| :: tokens[i].gate
    ensures |results| == |tokens|
    ensures forall g: Gate :: g in GatesOf(tokens) ==>
              Successes(GatesOf(tokens), results, g) == if old(g.consumed) then 0 else 1
    ensures forall i :: 0 <= i < |tokens| ==>
              (results[i] <==> !old(tokens[i].gate.consumed) && tokens[i].gate !in GatesOf(tokens)[..i])
  {
    hide Successes;
    results := [];
    NoAttempt();
    var gates := GatesOf(tokens);
    for n := 0 to |tokens|
      invariant |results| == n
      invariant forall g: Gate :: g in gates ==> g.consumed == (old(g.consumed) || g in gates[..n])
      invariant forall g: Gate :: g in gates ==>
                  Successes(gates[..n], results, g) == if !old(g.consumed) && g in gates[..n] then 1 else 0
      invariant forall i :: 0 <= i < n ==> (results[i] <==> !old(gates[i].consumed) && gates[i] !in gates[..i])
    {
      assert gates[n] == tokens[n].gate;
      var ok := tokens[n].gate.Consume();
      assert gates[..n + 1] == gates[..n] + [gates[n]];
      forall g: Gate | g in gates
        ensures Successes(gates[..n + 1], results + [ok], g)
                == Successes(gates[..n], results, g) + if gates[n] == g && ok then 1 else 0
      {
        OneMoreAttempt(gates[..n], results, gates[n], ok, g);
      }
      results := results + [ok];
    }
    assert gates[..|gates|] == gates;
  }
}
