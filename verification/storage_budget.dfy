/**
 The storage gate (internal/storagebudget/budget.go) and the import writer that relies on it
 (internal/artifact/store.go).

 Job output is written without the gate, so sizes change while `Status` walks the files.  The walk
 takes used bytes and consumed credit from the same stat, and that makes used plus reserved exact
 for every schedule of writers.
 */
module StorageBudget {

  type JobId = string
  type Path = string

  const IMPORT_CREDIT := 4 * 1024 * 1024

  // ----- Sums over maps -----------------------------------------------------------------------

  ghost function Total<K(!new)>(m: map<K, int>): int {
    if m == map[] then 0
    else
      var k :| k in m;
      m[k] + Total(m - {k})
  }

  lemma {:induction false} TotalWithout<K(!new)>(m: map<K, int>, k: K)
    requires k in m
    ensures Total(m) == m[k] + Total(m - {k})
    decreases |m|
  {
    var j :| j in m && Total(m) == m[j] + Total(m - {j});
    if j != k {
      TotalWithout(m - {j}, k);
      TotalWithout(m - {k}, j);
      assert m - {j} - {k} == m - {k} - {j};
    }
  }

  lemma TotalUpdated<K(!new)>(m: map<K, int>, k: K, v: int)
    ensures Total(m[k := v]) == Total(m) - (if k in m then m[k] else 0) + v
  {
    TotalWithout(m[k := v], k);
    if k in m {
      TotalWithout(m, k);
      assert m[k := v] - {k} == m - {k};
    } else {
      assert m[k := v] - {k} == m;
    }
  }

  // ----- Files ----------------------------------------------------------------------------------

  // What is under the root.  `fixed` files change only under the gate; output files come, go and
  // change at any time, each within its cap.
  class Storage {
    var sizes: map<Path, nat>
    var fixed: map<Path, nat>
    var caps: map<Path, nat>
    // Files of validated artifacts and of finished jobs, the only ones cleanup may remove.
    const evictable: set<Path>

    ghost predicate Valid()
      reads this
    {
      && fixed.Keys !! caps.Keys && sizes.Keys <= fixed.Keys + caps.Keys
      && (forall p <- fixed :: p in sizes && sizes[p] == fixed[p])
      && (forall p <- sizes :: p in caps ==> sizes[p] <= caps[p])
    }

    // Any amount of ungated output.
    method WritersRun()
      requires Valid()
      modifies this`sizes
      ensures Valid()
    {
      var output: map<Path, nat> := *;
      sizes := fixed + map p | p in output && p in caps && output[p] <= caps[p] :: output[p];
    }
  }

  // The bytes of the fixed files among those walked.
  ghost function FixedBytes(fixed: map<Path, nat>, walk: seq<Path>): nat {
    if walk == [] then 0
    else FixedBytes(fixed, walk[..|walk| - 1]) + if walk[|walk| - 1] in fixed then fixed[walk[|walk| - 1]] else 0
  }

  // The caps of the output paths that have not been walked yet.
  ghost function CapLeft(paths: seq<Path>, caps: map<Path, nat>, walked: seq<Path>): nat {
    if paths == [] then 0
    else
      var p := paths[|paths| - 1];
      CapLeft(paths[..|paths| - 1], caps, walked) + if p in walked || p !in caps then 0 else caps[p]
  }

  ghost predicate Distinct<T(!new)>(s: seq<T>) {
    forall i, j | 0 <= i < j < |s| :: s[i] != s[j]
  }

  lemma {:induction false} CapLeftWalks(paths: seq<Path>, caps: map<Path, nat>, walked: seq<Path>, p: Path)
    requires Distinct(paths) && p !in walked
    ensures CapLeft(paths, caps, walked) ==
      CapLeft(paths, caps, walked + [p]) + if p in paths && p in caps then caps[p] else 0
  {
    if paths != [] {
      var init := paths[..|paths| - 1];
      CapLeftWalks(init, caps, walked, p);
      assert paths[|paths| - 1] !in init;
      assert p in paths <==> p in init || p == paths[|paths| - 1];
    }
  }

  // Each output path belongs to one reserved job, and the caps of a job fit its reservation.
  ghost predicate Booked(consumption: map<JobId, seq<Path>>, reservations: map<JobId, int>, caps: map<Path, nat>) {
    && consumption.Keys <= reservations.Keys
    && (forall id <- reservations :: 0 <= reservations[id])
    && (forall id <- consumption :: Distinct(consumption[id]) && CapLeft(consumption[id], caps, []) <= reservations[id])
    && (forall id <- consumption, p <- consumption[id] :: p in caps)
    && (forall p <- caps :: exists id <- consumption :: p in consumption[id])
    && (forall a <- consumption, b <- consumption, p <- consumption[a] :: p in consumption[b] ==> a == b)
  }

  lemma BookedIsCovered(consumption: map<JobId, seq<Path>>, reservations: map<JobId, int>, caps: map<Path, nat>)
    requires Booked(consumption, reservations, caps)
    ensures Covered(consumption, caps, reservations, [])
  {
  }

  lemma BookedOwner(consumption: map<JobId, seq<Path>>, reservations: map<JobId, int>, caps: map<Path, nat>, p: Path)
    requires Booked(consumption, reservations, caps)
    ensures p in caps <==> exists id <- consumption :: p in consumption[id]
  {
  }

  // What remains of each reservation covers everything its unwalked files can still show.
  ghost predicate Covered(consumption: map<JobId, seq<Path>>, caps: map<Path, nat>, remaining: map<JobId, int>, walked: seq<Path>) {
    && (forall id <- remaining :: 0 <= remaining[id])
    && forall id <- consumption :: id in remaining && Distinct(consumption[id]) && remaining[id] >= CapLeft(consumption[id], caps, walked)
  }

  lemma CoveredPositive(consumption: map<JobId, seq<Path>>, caps: map<Path, nat>, remaining: map<JobId, int>, walked: seq<Path>)
    requires Covered(consumption, caps, remaining, walked)
    ensures forall id <- remaining :: 0 <= remaining[id]
  {
  }

  lemma WalkedUnowned(consumption: map<JobId, seq<Path>>, caps: map<Path, nat>, remaining: map<JobId, int>, walked: seq<Path>, p: Path)
    requires Covered(consumption, caps, remaining, walked) && p !in walked
    ensures Covered(consumption, caps, remaining, walked + [p])
  {
    forall id <- consumption ensures remaining[id] >= CapLeft(consumption[id], caps, walked + [p]) {
      CapLeftWalks(consumption[id], caps, walked, p);
    }
  }

  lemma WalkedOwned(consumption: map<JobId, seq<Path>>, caps: map<Path, nat>, remaining: map<JobId, int>, walked: seq<Path>,
    p: Path, owner: JobId, size: nat)
    requires Covered(consumption, caps, remaining, walked) && p !in walked
    requires owner in consumption && p in consumption[owner] && p in caps && size <= caps[p]
    ensures Covered(consumption, caps, remaining[owner := remaining[owner] - size], walked + [p])
  {
    forall id <- consumption
      ensures remaining[owner := remaining[owner] - size][id] >= CapLeft(consumption[id], caps, walked + [p])
    {
      CapLeftWalks(consumption[id], caps, walked, p);
    }
  }

  // ----- The gate ---------------------------------------------------------------------------------

  datatype Status = Status(usedBytes: nat, reservedBytes: nat, availableBytes: nat, overBudget: bool)

  class Gate {
    const limit: nat
    const storage: Storage
    var consumption: map<JobId, seq<Path>>
    var reservations: map<JobId, int>

    constructor (limit: nat, storage: Storage)
      ensures this.limit == limit && this.storage == storage && consumption == map[] && reservations == map[]
    {
      this.limit, this.storage, consumption, reservations := limit, storage, map[], map[];
    }

    ghost predicate Valid()
      reads this, storage
    {
      storage.Valid() && Booked(consumption, reservations, storage.caps)
    }

    // The walk lists every fixed file, each path once; of the output files it may miss any.
    ghost predicate Walks(walk: seq<Path>)
      reads this, storage
    {
      WalkOf(storage.fixed, storage.caps, walk)
    }

    // The job whose reservation pays for a path.
    method Owner(p: Path) returns (owner: set<JobId>)
      ensures owner == set id | id in consumption && p in consumption[id]
    {
      owner := set id | id in consumption && p in consumption[id];
    }

    // StatusLocked, with the writers running between any two stats.
    method StatusLocked(walk: seq<Path>) returns (s: Status)
      requires Valid() && Walks(walk)
      modifies storage`sizes
      ensures Valid()
      ensures s.usedBytes + s.reservedBytes == FixedBytes(storage.fixed, walk) + Total(reservations)
      ensures var committed := FixedBytes(storage.fixed, walk) + Total(reservations);
        s.availableBytes == (if committed <= limit then limit - committed else 0) && (s.overBudget <==> committed > limit)
    {
      hide Booked, Covered, CapLeft;
      BookedIsCovered(consumption, reservations, storage.caps);
      var used: nat := 0;
      var remaining := reservations;
      assert walk[..0] == [];
      for i := 0 to |walk|
        invariant Valid() && Covered(consumption, storage.caps, remaining, walk[..i])
        invariant remaining.Keys == reservations.Keys
        invariant used + Total(remaining) == FixedBytes(storage.fixed, walk[..i]) + Total(reservations)
      {
        var p := walk[i];
        assert walk[..i + 1] == walk[..i] + [p] && p !in walk[..i];
        assert walk[..i + 1][..i] == walk[..i];
        storage.WritersRun();
        BookedOwner(consumption, reservations, storage.caps, p);
        // A file that vanished before its stat is skipped.
        var size := if p in storage.sizes then storage.sizes[p] else 0;
        var owner := Owner(p);
        assert p in storage.caps ==> exists id <- consumption :: p in consumption[id] && id in owner;
        assert FixedBytes(storage.fixed, walk[..i + 1]) ==
          FixedBytes(storage.fixed, walk[..i]) + if p in storage.fixed then storage.fixed[p] else 0;
        if owner == {} {
          WalkedUnowned(consumption, storage.caps, remaining, walk[..i], p);
          used := used + size;
        } else {
          var id :| id in owner;
          WalkedOwned(consumption, storage.caps, remaining, walk[..i], p, id, size);
          used := used + size;
          TotalUpdated(remaining, id, remaining[id] - size);
          remaining := remaining[id := remaining[id] - size];
        }
      }
      assert walk[..|walk|] == walk;
      assert forall id <- remaining :: 0 <= remaining[id] by { CoveredPositive(consumption, storage.caps, remaining, walk); }
      var reserved := AddPositive(remaining);
      var available := limit - used - reserved;
      s := Status(used, reserved, if available < 0 then 0 else available, used + reserved > limit);
    }

    // EnsureLocked.  The walk is repeated after reclaiming, on what is left.  `goes` is what cleanup
    // selects; `refuses`: it may report an error.  The answer is yes exactly when there is room in the end.
    method EnsureLocked(n: nat, walk: seq<Path>, goes: set<Path>, refuses: bool) returns (ok: bool, after: seq<Path>)
      requires Valid() && Walks(walk)
      modifies storage
      ensures Valid() && Walks(after) && FixedBytes(storage.fixed, after) <= FixedBytes(old(storage.fixed), walk)
      ensures storage.caps == old(storage.caps)
      ensures ok ==> FixedBytes(storage.fixed, after) + Total(reservations) + n <= limit
      ensures !refuses ==> (ok <==> FixedBytes(storage.fixed, after) + Total(reservations) + n <= limit)
      ensures if FixedBytes(old(storage.fixed), walk) + Total(reservations) + n <= limit
        then ok && storage.fixed == old(storage.fixed) && after == walk
        else storage.fixed == old(storage.fixed) - goes * storage.evictable
    {
      after := walk;
      var s := StatusLocked(walk);
      if n <= s.availableBytes && !s.overBudget {
        return true, after;
      }
      var rest := Reclaim(walk, goes);
      after := rest;
      var failed := *;
      if refuses && failed {
        return false, after;
      }
      s := StatusLocked(rest);
      return !s.overBudget && n <= s.availableBytes, after;
    }

    // Cleanup as the gate sees it: those of the selected files that may be removed go.
    method Reclaim(walk: seq<Path>, goes: set<Path>) returns (rest: seq<Path>)
      requires Valid() && Walks(walk)
      modifies storage
      ensures Valid() && Walks(rest) && FixedBytes(storage.fixed, rest) <= FixedBytes(old(storage.fixed), walk)
      ensures storage.caps == old(storage.caps) && storage.fixed == old(storage.fixed) - goes * storage.evictable
    {
      hide Booked, WalkOf, ReclaimedBut, FixedBytes;
      rest := walk;
      var i := 0;
      ReclaimStarts(storage.fixed, storage.caps, goes * storage.evictable, walk);
      while i < |rest|
        invariant i <= |rest| && Valid() && Walks(rest) && storage.caps == old(storage.caps)
        invariant FixedBytes(storage.fixed, rest) <= FixedBytes(old(storage.fixed), walk)
        invariant ReclaimedBut(old(storage.fixed), storage.fixed, goes * storage.evictable, rest[i..])
      {
        ReclaimGoesOn(old(storage.fixed), storage.fixed, storage.caps, goes * storage.evictable, rest, i);
        if rest[i] in goes && rest[i] in storage.evictable && rest[i] in storage.fixed {
          rest := RemoveAt(rest, i);
        } else {
          i := i + 1;
        }
      }
      ReclaimEnds(old(storage.fixed), storage.fixed, goes * storage.evictable, rest[i..]);
    }

    method RemoveAt(walk: seq<Path>, i: nat) returns (rest: seq<Path>)
      requires Valid() && Walks(walk) && i < |walk| && walk[i] in storage.fixed
      modifies storage
      ensures Valid() && Walks(rest) && rest == walk[..i] + walk[i + 1..]
      ensures storage.caps == old(storage.caps) && storage.fixed == old(storage.fixed) - {walk[i]}
      ensures FixedBytes(storage.fixed, rest) <= FixedBytes(old(storage.fixed), walk)
    {
      hide Booked, WalkOf;
      WalkWithout(storage.fixed, storage.caps, walk, i);
      storage.sizes := storage.sizes - {walk[i]};
      storage.fixed := storage.fixed - {walk[i]};
      rest := walk[..i] + walk[i + 1..];
    }
  }

  // All of the chosen files are gone but those still ahead.
  ghost predicate ReclaimedBut(before: map<Path, nat>, now: map<Path, nat>, chosen: set<Path>, ahead: seq<Path>) {
    now == before - (set p | p in chosen && p !in ahead)
  }

  lemma ReclaimStarts(fixed: map<Path, nat>, caps: map<Path, nat>, chosen: set<Path>, walk: seq<Path>)
    requires WalkOf(fixed, caps, walk)
    ensures ReclaimedBut(fixed, fixed, chosen, walk[0..])
  {
    assert walk[0..] == walk;
  }

  lemma ReclaimGoesOn(before: map<Path, nat>, now: map<Path, nat>, caps: map<Path, nat>, chosen: set<Path>, walk: seq<Path>, i: nat)
    requires WalkOf(now, caps, walk) && i < |walk| && ReclaimedBut(before, now, chosen, walk[i..])
    ensures (walk[..i] + walk[i + 1..])[i..] == walk[i + 1..]
    ensures walk[i] in chosen ==> ReclaimedBut(before, now - {walk[i]}, chosen, walk[i + 1..])
    ensures walk[i] !in chosen || walk[i] !in now ==> ReclaimedBut(before, now, chosen, walk[i + 1..])
  {
    assert walk[i..] == [walk[i]] + walk[i + 1..];
  }

  lemma ReclaimEnds(before: map<Path, nat>, now: map<Path, nat>, chosen: set<Path>, ahead: seq<Path>)
    requires ReclaimedBut(before, now, chosen, ahead) && ahead == []
    ensures now == before - chosen
  {
  }

  lemma {:induction false} FixedBytesWithout(fixed: map<Path, nat>, walk: seq<Path>, p: Path, v: nat)
    requires p !in walk
    ensures FixedBytes(fixed - {p}, walk) == FixedBytes(fixed, walk) == FixedBytes(fixed[p := v], walk)
  {
    if walk != [] {
      assert walk[|walk| - 1] in walk;
      FixedBytesWithout(fixed, walk[..|walk| - 1], p, v);
    }
  }

  lemma {:induction false} FixedBytesConcat(fixed: map<Path, nat>, a: seq<Path>, b: seq<Path>)
    ensures FixedBytes(fixed, a + b) == FixedBytes(fixed, a) + FixedBytes(fixed, b)
  {
    if b == [] {
      assert a + b == a;
    } else {
      assert (a + b)[..|a + b| - 1] == a + b[..|b| - 1];
      FixedBytesConcat(fixed, a, b[..|b| - 1]);
    }
  }

  // The share of one walked path in the fixed bytes.
  lemma FixedBytesAt(fixed: map<Path, nat>, walk: seq<Path>, i: nat, v: nat)
    requires i < |walk| && Distinct(walk)
    ensures var others := FixedBytes(fixed, walk[..i]) + FixedBytes(fixed, walk[i + 1..]);
      && FixedBytes(fixed, walk) == others + (if walk[i] in fixed then fixed[walk[i]] else 0)
      && FixedBytes(fixed - {walk[i]}, walk[..i] + walk[i + 1..]) == others
      && FixedBytes(fixed[walk[i] := v], walk) == others + v
  {
    var p, before, after := walk[i], walk[..i], walk[i + 1..];
    assert walk == before + [p] + after && p !in before && p !in after;
    assert [p][..0] == [];
    FixedBytesConcat(fixed, before + [p], after);
    FixedBytesConcat(fixed, before, [p]);
    FixedBytesConcat(fixed - {p}, before, after);
    FixedBytesWithout(fixed, before, p, v);
    FixedBytesWithout(fixed, after, p, v);
    FixedBytesConcat(fixed[p := v], before + [p], after);
    FixedBytesConcat(fixed[p := v], before, [p]);
  }

  ghost predicate WalkOf(fixed: map<Path, nat>, caps: map<Path, nat>, walk: seq<Path>) {
    Distinct(walk) && (forall p <- fixed :: p in walk) && forall p <- walk :: p in fixed || p in caps
  }

  lemma Without(walk: seq<Path>, i: nat)
    requires Distinct(walk) && i < |walk|
    ensures var rest := walk[..i] + walk[i + 1..];
      Distinct(rest) && forall p :: p in rest <==> p in walk && p != walk[i]
  {
    var rest := walk[..i] + walk[i + 1..];
    assert forall j | 0 <= j < |rest| :: rest[j] == walk[if j < i then j else j + 1];
    forall p | p in walk && p != walk[i] ensures p in rest {
      var j :| 0 <= j < |walk| && walk[j] == p;
      assert rest[if j < i then j else j - 1] == p;
    }
  }

  lemma WalkWithout(fixed: map<Path, nat>, caps: map<Path, nat>, walk: seq<Path>, i: nat)
    requires WalkOf(fixed, caps, walk) && i < |walk| && walk[i] in fixed
    ensures WalkOf(fixed - {walk[i]}, caps, walk[..i] + walk[i + 1..])
    ensures FixedBytes(fixed - {walk[i]}, walk[..i] + walk[i + 1..]) <= FixedBytes(fixed, walk)
  {
    Without(walk, i);
    FixedBytesAt(fixed, walk, i, 0);
  }

  // Only what is left of a reservation counts.
  method AddPositive<K(!new, ==)>(remaining: map<K, int>) returns (sum: nat)
    requires forall id <- remaining :: 0 <= remaining[id]
    ensures sum == Total(remaining)
  {
    sum := 0;
    var rest := remaining;
    while rest != map[]
      invariant rest.Keys <= remaining.Keys && forall id <- rest :: rest[id] == remaining[id]
      invariant sum + Total(rest) == Total(remaining)
      decreases |rest|
    {
      var id :| id in rest;
      TotalWithout(rest, id);
      if rest[id] > 0 {
        sum := sum + rest[id];
      }
      rest := rest - {id};
    }
  }

  // ----- Writing an import -----------------------------------------------------------------------

  // checkedWriter: every byte of an upload is paid for from a credit the gate has granted.
  class CheckedWriter {
    const gate: Gate
    const path: Path
    var credit: nat

    constructor (gate: Gate, path: Path)
      ensures this.gate == gate && this.path == path && credit == 0
    {
      this.gate, this.path, credit := gate, path, 0;
    }

    ghost predicate Valid()
      reads this, gate, gate.storage
    {
      gate.Valid() && path in gate.storage.fixed && path !in gate.storage.evictable
    }

    // What is committed, and what this writer may still add.
    ghost function Committed(walk: seq<Path>): int
      reads gate, gate.storage
    {
      FixedBytes(gate.storage.fixed, walk) + Total(gate.reservations)
    }

    method Grow(length: nat, walk: seq<Path>)
      requires Valid() && gate.Walks(walk)
      modifies gate.storage
      ensures Valid() && gate.Walks(walk) && Committed(walk) == old(Committed(walk)) + length
      ensures gate.storage.fixed[path] == old(gate.storage.fixed)[path] + length
    {
      hide Booked, FixedBytes;
      ghost var i: nat :| i < |walk| && walk[i] == path;
      FixedBytesAt(gate.storage.fixed, walk, i, gate.storage.fixed[path] + length);
      gate.storage.fixed := gate.storage.fixed[path := gate.storage.fixed[path] + length];
      gate.storage.sizes := gate.storage.sizes[path := gate.storage.sizes[path] + length];
    }

    // No write takes the committed bytes over the limit, whatever the credit was; and none that has
    // credit or room is refused.  Cleanup selects `goes` at the first attempt and `later` at the second.
    method Write(length: nat, walk: seq<Path>, goes: set<Path>, later: set<Path>, refuses: bool) returns (ok: bool, after: seq<Path>)
      requires Valid() && gate.Walks(walk) && Committed(walk) + credit <= gate.limit
      modifies this, gate.storage
      ensures Valid() && gate.Walks(after) && Committed(after) + credit <= gate.limit
      ensures gate.storage.fixed[path] == old(gate.storage.fixed)[path] + (if ok then length else 0)
      ensures length <= old(credit) || old(Committed(walk)) + length <= gate.limit ==> ok
      ensures !refuses ==> (ok <==> length <= old(credit) || Committed(after) + (if ok then 0 else length) <= gate.limit)
      ensures !ok ==> credit == old(credit) && gate.storage.fixed == old(gate.storage.fixed) - (goes + later) * gate.storage.evictable
    {
      hide Booked, WalkOf;
      after := walk;
      if length > credit {
        var n := if IMPORT_CREDIT < length then length else IMPORT_CREDIT;
        ok, after := gate.EnsureLocked(n, walk, goes, refuses);
        if !ok {
          ok, after := gate.EnsureLocked(length, after, later, refuses);
          if !ok {
            return;
          }
          n := length;
        }
        credit := n;
      }
      Grow(length, after);
      credit := credit - length;
      return true, after;
    }
  }
}
