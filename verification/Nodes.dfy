/** The registry of paired nodes: one row per identity, whose limits a solve can always be admitted under. */
module NodeRegistry {
  import opened Basics
  import opened Ranking
  import opened Admission

  type Time = int

  datatype Row = Row(label_: string, address: string, fingerprint: string, pairedAt: Time, revokedAt: Option<Time>,
                     limits: Limits)

  /** What pairing a node brings: where it is, who it is, and its own ceilings when it states them. */
  datatype Paired = Paired(address: string, fingerprint: string, ceilings: Option<Ceilings>)

  datatype Change = Change(label_: Option<string>, solves: Option<int>, workers: Option<int>)

  type Nodes = map<int, Row>

  ghost predicate Known(nodes: Nodes, fingerprint: string) {
    exists id :: id in nodes && nodes[id].fingerprint == fingerprint
  }

  function WithFingerprint(nodes: Nodes, fingerprint: string): set<int> {
    set id | id in nodes && nodes[id].fingerprint == fingerprint
  }

  /** One row per identity, and every limit usable. */
  ghost predicate Sound(nodes: Nodes) {
    && (forall a, b :: a in nodes && b in nodes && nodes[a].fingerprint == nodes[b].fingerprint ==> a == b)
    && (forall id :: id in nodes ==> Sane(nodes[id].limits))
  }

  /** Paired again: the address and the name are new, a revocation is over, and the limits fit the ceilings. */
  function PairedAgain(row: Row, name: string, paired: Paired, at: Time): Row {
    row.(label_ := if name == "" then row.label_ else name,
         address := paired.address, pairedAt := at, revokedAt := None,
         limits := if paired.ceilings.Some? then Within(row.limits, paired.ceilings.value) else row.limits)
  }

  function FirstPaired(name: string, paired: Paired, at: Time): Row {
    Row(name, paired.address, paired.fingerprint, at, None, DefaultLimits(paired.ceilings))
  }

  function WithChange(row: Row, change: Change): Row {
    row.(label_ := change.label_.GetOr(row.label_),
         limits := Limits(change.solves.GetOr(row.limits.solves), change.workers.GetOr(row.limits.workers)))
  }

  /** `order by paired_at, id`. */
  function EarlierIn(nodes: Nodes): Order {
    (a: int, b: int) => a in nodes && b in nodes
                        && (nodes[a].pairedAt < nodes[b].pairedAt || (nodes[a].pairedAt == nodes[b].pairedAt && a < b))
  }

  function Unrevoked(nodes: Nodes): set<int> {
    set id | id in nodes && nodes[id].revokedAt.None?
  }

  lemma EarlierIsStrict(nodes: Nodes)
    ensures Strict(Unrevoked(nodes), EarlierIn(nodes))
  {
  }

  class Registry {
    var nodes: Nodes

    constructor ()
      ensures nodes == map[]
    {
      nodes := map[];
    }

    /** The row that already has this certificate, revoked or not. */
    method ByFingerprint(fingerprint: string) returns (id: Option<int>)
      ensures id.None? <==> forall n :: n in nodes ==> nodes[n].fingerprint != fingerprint
      ensures id.Some? ==> id.value in nodes && nodes[id.value].fingerprint == fingerprint
    {
      var found := WithFingerprint(nodes, fingerprint);
      if found == {} {
        assert forall id :: id in nodes && nodes[id].fingerprint == fingerprint ==> id in found;
        return None;
      }
      assert exists one :: one in found by { ghost var w: int := Member(found); assert w in found; }
      var one :| one in found;
      return Some(one);
    }

    /**
     * Stores a pairing. A node known by its identity keeps its row and its id, revoked or not; a new one needs a
     * name. Either way it can be dispatched to, within the ceilings it stated.
     */
    method Record(fresh_: int, name: string, paired: Paired, at: Time) returns (id: Option<int>)
      requires Sound(nodes) && fresh_ !in nodes
      modifies this
      ensures Sound(nodes) && (id.Some? ==> Does(old(nodes), Recorded(id.value, name, paired, at), nodes))
      ensures id.None?
              <==> name == "" && forall n :: n in old(nodes) ==> old(nodes)[n].fingerprint != paired.fingerprint
      ensures id.None? ==> nodes == old(nodes)
      ensures id.Some? ==>
                && id.value in nodes && nodes == old(nodes)[id.value := nodes[id.value]]
                && var row := nodes[id.value];
                   && row.fingerprint == paired.fingerprint && row.revokedAt == None
                   && row.address == paired.address && row.pairedAt == at && (name != "" ==> row.label_ == name)
                   && match paired.ceilings
                      case None => true
                      case Some(c) => && (c.solves == 0 || row.limits.solves <= c.solves)
                                      && (c.workers == 0 || row.limits.workers <= c.workers)
      ensures id.Some? && id.value in old(nodes) ==>
                var (was, row) := (old(nodes)[id.value], nodes[id.value]);
                && was.fingerprint == paired.fingerprint && (name == "" ==> row.label_ == was.label_)
                && (paired.ceilings == None ==> row.limits == was.limits)
                && (paired.ceilings.Some? ==> row.limits == Within(was.limits, paired.ceilings.value))
      ensures id.Some? && id.value !in old(nodes) ==>
                && id.value == fresh_ && name != "" && nodes[fresh_].limits == DefaultLimits(paired.ceilings)
                && forall n :: n in old(nodes) ==> old(nodes)[n].fingerprint != paired.fingerprint
    {
      var existing := ByFingerprint(paired.fingerprint);
      if existing.Some? {
        var row := nodes[existing.value];
        if paired.ceilings.Some? {
          WithinIsTheMost(row.limits, row.limits, paired.ceilings.value);
        }
        nodes := nodes[existing.value := PairedAgain(row, name, paired, at)];
        return existing;
      }
      if name == "" {
        return None;
      }
      DefaultIsSane(paired.ceilings);
      nodes := nodes[fresh_ := FirstPaired(name, paired, at)];
      return Some(fresh_);
    }

    /** Renames a node or sets its limits, which the caller has checked. */
    method Update(id: int, change: Change) returns (row: Option<Row>)
      requires Sound(nodes) && (id in nodes ==> Sane(WithChange(nodes[id], change).limits))
      modifies this
      ensures Sound(nodes)
      ensures row == if id in nodes then Some(nodes[id]) else None
      ensures id !in old(nodes) ==> nodes == old(nodes)
      ensures id in old(nodes) ==>
                && Does(old(nodes), Updated(id, change), nodes)
                && id in nodes && nodes == old(nodes)[id := nodes[id]]
                && var (was, now) := (old(nodes)[id], nodes[id]);
                   && now == was.(label_ := now.label_, limits := now.limits)
                   && (if change.label_.Some? then now.label_ == change.label_.value else now.label_ == was.label_)
                   && (if change.solves.Some? then now.limits.solves == change.solves.value
                       else now.limits.solves == was.limits.solves)
                   && (if change.workers.Some? then now.limits.workers == change.workers.value
                       else now.limits.workers == was.limits.workers)
    {
      if id !in nodes {
        return None;
      }
      var changed := nodes[id];
      if change.label_.Some? {
        changed := changed.(label_ := change.label_.value);
      }
      if change.solves.Some? {
        changed := changed.(limits := changed.limits.(solves := change.solves.value));
      }
      if change.workers.Some? {
        changed := changed.(limits := changed.limits.(workers := change.workers.value));
      }
      nodes := nodes[id := changed];
      return Some(changed);
    }

    /** A node is out from the first revoke on, and later ones change nothing; only an id without a row is an error. */
    method Revoke(id: int, at: Time) returns (known: bool)
      modifies this
      ensures known <==> id in old(nodes)
      ensures known ==> Does(old(nodes), Call.Revoked(id, at), nodes)
      ensures nodes == if known && old(nodes)[id].revokedAt.None?
                       then old(nodes)[id := old(nodes)[id].(revokedAt := Some(at))] else old(nodes)
      ensures Sound(old(nodes)) ==> Sound(nodes)
    {
      if id in nodes && nodes[id].revokedAt.None? {
        nodes := nodes[id := nodes[id].(revokedAt := Some(at))];
      }
      return id in nodes;
    }

    /** The unrevoked nodes, earliest paired first: the order in which admission tries them. */
    method Active() returns (listed: seq<int>)
      ensures Lists(listed, Unrevoked(nodes))
      ensures forall id :: id in listed <==> id in nodes && nodes[id].revokedAt == None
      ensures forall i, j :: 0 <= i < j < |listed| ==>
                && listed[i] != listed[j] && listed[i] in nodes && listed[j] in nodes
                && (nodes[listed[i]].pairedAt < nodes[listed[j]].pairedAt
                    || (nodes[listed[i]].pairedAt == nodes[listed[j]].pairedAt && listed[i] < listed[j]))
    {
      EarlierIsStrict(nodes);
      listed := RowsBy(Unrevoked(nodes), EarlierIn(nodes));
    }
  }

  // ------------------------------------------------------------------- runs

  /** One call that writes the registry. */
  datatype Call =
    | Recorded(id: int, name: string, paired: Paired, at: Time)
    | Updated(id: int, change: Change)
    | Revoked(id: int, at: Time)

  /** What `Registry.Record`, `Update` and `Revoke` are proved to do to the rows. */
  ghost predicate Does(nodes: Nodes, c: Call, after: Nodes) {
    match c
    case Recorded(id, name, paired, at) =>
      if id in nodes then
        nodes[id].fingerprint == paired.fingerprint && after == nodes[id := PairedAgain(nodes[id], name, paired, at)]
      else !Known(nodes, paired.fingerprint) && after == nodes[id := FirstPaired(name, paired, at)]
    case Updated(id, change) =>
      id in nodes && Sane(WithChange(nodes[id], change).limits) && after == nodes[id := WithChange(nodes[id], change)]
    case Revoked(id, at) =>
      id in nodes
      && after == if nodes[id].revokedAt.None? then nodes[id := nodes[id].(revokedAt := Some(at))] else nodes
  }

  ghost predicate Moves(nodes: Nodes, after: Nodes) {
    exists c :: Does(nodes, c, after)
  }

  ghost predicate History(run: seq<Nodes>) {
    |run| > 0 && run[0] == map[] && forall i :: 0 <= i < |run| - 1 ==> Moves(run[i], run[i + 1])
  }

  lemma DoesKeeps(nodes: Nodes, c: Call, after: Nodes)
    requires Sound(nodes) && Does(nodes, c, after)
    ensures Sound(after)
    ensures forall id :: id in nodes ==> id in after && after[id].fingerprint == nodes[id].fingerprint
  {
  }

  /** In every history each identity has one row, and every node's limits admit at least one solve and one worker. */
  lemma {:induction false} AlwaysSound(run: seq<Nodes>, i: nat)
    requires History(run) && i < |run|
    ensures Sound(run[i])
    ensures forall id :: id in run[i] ==>
              && 1 <= run[i][id].limits.solves <= 64 && 1 <= run[i][id].limits.workers <= 64
              && forall other :: other in run[i] && run[i][other].fingerprint == run[i][id].fingerprint ==> other == id
  {
    if i > 0 {
      AlwaysSound(run, i - 1);
      assert Moves(run[i - 1], run[i]);
      hide Sound, Does;
      var c :| Does(run[i - 1], c, run[i]);
      DoesKeeps(run[i - 1], c, run[i]);
    }
  }

  /** A node's id is its identity's for good, however often it is revoked and paired again. */
  lemma IdIsForGood(run: seq<Nodes>, i: nat, j: nat, a: int, b: int)
    requires History(run) && i <= j < |run| && a in run[i] && b in run[j]
    requires run[i][a].fingerprint == run[j][b].fingerprint
    ensures a == b
  {
    RowsStay(run, i, j, a);
    AlwaysSound(run, j);
  }

  lemma {:induction false} RowsStay(run: seq<Nodes>, i: nat, j: nat, id: int)
    requires History(run) && i <= j < |run| && id in run[i]
    ensures id in run[j] && run[j][id].fingerprint == run[i][id].fingerprint
  {
    if i < j {
      RowsStay(run, i, j - 1, id);
      AlwaysSound(run, j - 1);
      assert Moves(run[j - 1], run[j]);
      hide Sound, Does;
      var c :| Does(run[j - 1], c, run[j]);
      DoesKeeps(run[j - 1], c, run[j]);
    }
  }
}
