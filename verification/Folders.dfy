/** The folders of a library: names trimmed in place, and parents that form a forest of bounded depth. */
module Folders {
  import opened Basics
  import opened GpfText

  const MAX_FOLDERS: nat := 500
  const MAX_DEPTH: nat := 8
  const MAX_NAME_LENGTH: nat := 200

  datatype Folder = Folder(id: string, parent: string, name: string, accent: string)

  datatype Problem =
    | TooMany
    | IdInvalid
    | IdDuplicate
    | NameRequired
    | NameTooLong
    | AccentInvalid
    | ParentUnknown
    | Cycle
    | TooDeep

  /** Each folder's parent, empty at the top. */
  type Parents = map<string, string>

  predicate IdChar(c: char) {
    'A' <= c <= 'Z' || 'a' <= c <= 'z' || '0' <= c <= '9' || c == '_' || c == '-'
  }

  predicate IdFits(id: string) {
    1 <= |id| <= 64 && forall i :: 0 <= i < |id| ==> IdChar(id[i])
  }

  predicate AccentFits(accent: string) {
    |accent| <= 32 && forall i :: 0 <= i < |accent| ==>
      'a' <= accent[i] <= 'z' || '0' <= accent[i] <= '9' || accent[i] == '-'
  }

  function Tidied(f: Folder): Folder {
    f.(name := Trim(f.name))
  }

  /** What is wrong with one folder on its own, its id already known to be new. */
  function Flaw(f: Folder): Option<Problem> {
    if Trim(f.name) == "" then Some(NameRequired)
    else if |Trim(f.name)| > MAX_NAME_LENGTH then Some(NameTooLong)
    else if !AccentFits(f.accent) then Some(AccentInvalid)
    else None
  }

  /** Few enough folders, each sound on its own, and no id twice. */
  ghost predicate WellFormed(fs: seq<Folder>) {
    && |fs| <= MAX_FOLDERS
    && (forall i :: 0 <= i < |fs| ==> IdFits(fs[i].id) && Flaw(fs[i]).None?)
    && (forall i, j :: 0 <= i < j < |fs| ==> fs[i].id != fs[j].id)
  }

  function ParentsOf(fs: seq<Folder>): Parents {
    if fs == [] then map[]
    else ParentsOf(fs[..|fs| - 1])[fs[|fs| - 1].id := fs[|fs| - 1].parent]
  }

  /** From one folder's parent the top is `n` folders up. */
  ghost predicate Rooted(ps: Parents, p: string, n: nat)
    decreases n
  {
    if n == 0 then p == "" else p != "" && p in ps && Rooted(ps, ps[p], n - 1)
  }

  /** Following parents leads from `p` to `q` in `n` steps. */
  ghost predicate Leads(ps: Parents, p: string, n: nat, q: string)
    decreases n
  {
    if n == 0 then p == q else p != "" && p in ps && Leads(ps, ps[p], n - 1, q)
  }

  /** A folder that is its own ancestor. */
  ghost predicate HasCycle(ps: Parents) {
    exists p, n: nat :: n >= 1 && p in ps && Leads(ps, p, n, p)
  }

  /** Every folder's parents lead to the top, with at most this many folders on the way, itself included. */
  ghost predicate Forest(fs: seq<Folder>, depth: nat) {
    forall i :: 0 <= i < |fs| ==> Shallow(ParentsOf(fs), fs[i].parent, depth)
  }

  ghost predicate Shallow(ps: Parents, p: string, depth: nat) {
    exists n: nat :: n < depth && Rooted(ps, p, n)
  }

  // ---------------------------------------------------------------- climbing

  lemma {:induction false} OneDepth(ps: Parents, p: string, m: nat, n: nat)
    requires Rooted(ps, p, m) && Rooted(ps, p, n)
    ensures m == n
    decreases m
  {
    if m > 0 && n > 0 {
      OneDepth(ps, ps[p], m - 1, n - 1);
    }
  }

  lemma {:induction false} StepUp(ps: Parents, p: string, n: nat, q: string)
    requires Leads(ps, p, n, q) && q != "" && q in ps
    ensures Leads(ps, p, n + 1, ps[q])
    decreases n
  {
    if n > 0 {
      StepUp(ps, ps[p], n - 1, q);
    }
  }

  /** What is left to the top from a place on the way. */
  lemma {:induction false} RootedFrom(ps: Parents, p: string, n: nat, q: string, m: nat)
    requires Leads(ps, p, n, q)
    ensures m >= n && Rooted(ps, p, m) ==> Rooted(ps, q, m - n)
    ensures Rooted(ps, q, m) ==> Rooted(ps, p, n + m)
    decreases n
  {
    if n > 0 {
      RootedFrom(ps, ps[p], n - 1, q, if m > 0 then m - 1 else 0);
      RootedFrom(ps, ps[p], n - 1, q, m);
    }
  }

  /** The folders passed on the way up. */
  function Passed(ps: Parents, p: string, n: nat): seq<string>
    decreases n
  {
    if n == 0 then [] else [p] + if p in ps then Passed(ps, ps[p], n - 1) else []
  }

  lemma {:induction false} PassedLeads(ps: Parents, p: string, n: nat, q: string, i: nat)
    requires Leads(ps, p, n, q) && i < n
    ensures |Passed(ps, p, n)| == n && Passed(ps, p, n)[i] in ps
    ensures Leads(ps, p, i, Passed(ps, p, n)[i]) && Leads(ps, Passed(ps, p, n)[i], n - i, q)
    decreases n
  {
    if i > 0 {
      PassedLeads(ps, ps[p], n - 1, q, i - 1);
    } else if n > 1 {
      PassedLeads(ps, ps[p], n - 1, q, 0);
    }
  }

  /** More places than there are folders: one of them comes twice. */
  lemma {:induction false} Pigeonhole(places: seq<string>, ids: set<string>)
    requires |places| > |ids| && forall i :: 0 <= i < |places| ==> places[i] in ids
    ensures exists i, j :: 0 <= i < j < |places| && places[i] == places[j]
  {
    if forall i, j :: 0 <= i < j < |places| ==> places[i] != places[j] {
      DistinctSize(places);
      SubsetSize(Elements(places), ids);
    }
  }

  lemma {:induction false} LeadsApart(ps: Parents, p: string, i: nat, a: string, j: nat, b: string)
    requires i <= j && Leads(ps, p, i, a) && Leads(ps, p, j, b)
    ensures Leads(ps, a, j - i, b)
    decreases i
  {
    if i > 0 {
      LeadsApart(ps, ps[p], i - 1, a, j - 1, b);
    }
  }

  /** A way up that passes more folders than there are goes round. */
  lemma LongWayIsACycle(ps: Parents, p: string, n: nat, q: string)
    requires Leads(ps, p, n, q) && n > |ps|
    ensures HasCycle(ps)
    ensures !Rooted(ps, p, n)
  {
    hide Leads, Rooted, Passed;
    var places := Passed(ps, p, n);
    forall i | 0 <= i < n ensures |places| == n && places[i] in ps.Keys {
      PassedLeads(ps, p, n, q, i);
    }
    assert |places| == n by { PassedLeads(ps, p, n, q, 0); }
    Pigeonhole(places, ps.Keys);
    var i, j :| 0 <= i < j < |places| && places[i] == places[j];
    PassedLeads(ps, p, n, q, i);
    PassedLeads(ps, p, n, q, j);
    LeadsApart(ps, p, i, places[i], j, places[j]);
    assert places[i] in ps && Leads(ps, places[i], j - i, places[i]);
    if Rooted(ps, p, n) {
      RootedFrom(ps, p, i, places[i], n);
      RootedFrom(ps, p, j, places[j], n);
      OneDepth(ps, places[i], n - i, n - j);
    }
  }

  // -------------------------------------------------------------- the check

  /** One folder's depth, or what stops the climb. */
  method Climb(ps: Parents, start: string, count: nat) returns (depth: nat, problem: Option<Problem>)
    requires |ps| == count && "" !in ps
    ensures problem.None? ==> depth >= 1 && Rooted(ps, start, depth - 1)
    ensures problem.Some? ==> forall n: nat :: !Rooted(ps, start, n)
    ensures problem.Some? ==> problem == Some(ParentUnknown) || (problem == Some(Cycle) && HasCycle(ps))
    ensures problem == Some(ParentUnknown) ==>
              exists n: nat, p :: Leads(ps, start, n, p) && p != "" && p !in ps
  {
    depth := 1;
    var parent := start;
    while parent != ""
      invariant 1 <= depth <= count + 1
      invariant Leads(ps, start, depth - 1, parent)
      decreases count + 1 - depth
    {
      if parent !in ps {
        NeverRooted(ps, start, depth - 1, parent);
        return depth, Some(ParentUnknown);
      }
      if depth > count {
        StepUp(ps, start, depth - 1, parent);
        LongWayIsACycle(ps, start, depth, ps[parent]);
        TooLongIsNotRooted(ps, start, depth, ps[parent]);
        return depth, Some(Cycle);
      }
      StepUp(ps, start, depth - 1, parent);
      parent := ps[parent];
      depth := depth + 1;
    }
    RootedFrom(ps, start, depth - 1, "", 0);
    return depth, None;
  }

  lemma NeverRooted(ps: Parents, p: string, n: nat, q: string)
    requires Leads(ps, p, n, q) && q != "" && q !in ps
    ensures forall m: nat :: !Rooted(ps, p, m)
  {
    forall m: nat ensures !Rooted(ps, p, m) {
      StuckBelow(ps, p, n, q, m);
    }
  }

  lemma {:induction false} StuckBelow(ps: Parents, p: string, n: nat, q: string, m: nat)
    requires Leads(ps, p, n, q) && q != "" && q !in ps
    ensures !Rooted(ps, p, m)
    decreases n
  {
    if n > 0 && m > 0 {
      StuckBelow(ps, ps[p], n - 1, q, m - 1);
    }
  }

  lemma {:induction false} RootedLeads(ps: Parents, p: string, n: nat)
    requires Rooted(ps, p, n)
    ensures Leads(ps, p, n, "")
    decreases n
  {
    if n > 0 {
      RootedLeads(ps, ps[p], n - 1);
    }
  }

  lemma {:induction false} RootedAbove(ps: Parents, p: string, n: nat, q: string, m: nat)
    requires Leads(ps, p, n, q) && Rooted(ps, p, m) && "" !in ps
    ensures m >= n
    decreases n
  {
    if n > 0 {
      RootedAbove(ps, ps[p], n - 1, q, m - 1);
    }
  }

  lemma TooLongIsNotRooted(ps: Parents, p: string, n: nat, q: string)
    requires Leads(ps, p, n, q) && n > |ps| && "" !in ps
    ensures forall m: nat :: !Rooted(ps, p, m)
  {
    forall m: nat ensures !Rooted(ps, p, m) {
      if Rooted(ps, p, m) {
        RootedAbove(ps, p, n, q, m);
        RootedLeads(ps, p, m);
        LongWayIsACycle(ps, p, m, "");
      }
    }
  }

  /** The parents of exactly these folders. */
  ghost predicate Indexes(ps: Parents, fs: seq<Folder>) {
    && |ps| == |fs|
    && (forall i :: 0 <= i < |fs| ==> fs[i].id in ps && ps[fs[i].id] == fs[i].parent)
    && (forall id :: id in ps ==> HasId(fs, id))
  }

  ghost predicate HasId(fs: seq<Folder>, id: string) {
    exists i :: 0 <= i < |fs| && fs[i].id == id
  }

  lemma IndexesNext(ps: Parents, fs: seq<Folder>, f: Folder)
    requires Indexes(ps, fs) && f.id !in ps
    ensures Indexes(ps[f.id := f.parent], fs + [f])
  {
    hide HasId;
    var ps', fs' := ps[f.id := f.parent], fs + [f];
    OneKeyMore(ps, f.id, f.parent);
    forall i | 0 <= i < |fs'| ensures fs'[i].id in ps' && ps'[fs'[i].id] == fs'[i].parent {
      assert i < |fs| ==> fs'[i] == fs[i];
    }
    forall id | id in ps' ensures HasId(fs', id) {
      HasIdNext(fs, f, id);
    }
  }

  lemma OneKeyMore(ps: Parents, id: string, parent: string)
    requires id !in ps
    ensures |ps[id := parent]| == |ps| + 1
  {
  }

  lemma HasIdNext(fs: seq<Folder>, f: Folder, id: string)
    ensures HasId(fs, id) || id == f.id ==> HasId(fs + [f], id)
  {
    var fs' := fs + [f];
    assert fs'[|fs|] == f;
    if HasId(fs, id) {
      var i :| 0 <= i < |fs| && fs[i].id == id;
      assert fs'[i] == fs[i];
    }
  }

  lemma {:induction false} ParentsHave(fs: seq<Folder>)
    requires forall i, j :: 0 <= i < j < |fs| ==> fs[i].id != fs[j].id
    ensures Indexes(ParentsOf(fs), fs)
  {
    if fs != [] {
      var n := |fs| - 1;
      ParentsHave(fs[..n]);
      NewId(fs, n);
      IndexesNext(ParentsOf(fs[..n]), fs[..n], fs[n]);
      assert fs[..n] + [fs[n]] == fs;
    }
  }

  lemma NewId(fs: seq<Folder>, n: nat)
    requires n < |fs| && Indexes(ParentsOf(fs[..n]), fs[..n])
    ensures fs[n].id in ParentsOf(fs[..n]) <==> exists k :: 0 <= k < n && fs[k].id == fs[n].id
  {
  }

  lemma WellFormedNext(fs: seq<Folder>, n: nat)
    requires n < |fs| <= MAX_FOLDERS && WellFormed(fs[..n])
    ensures IdFits(fs[n].id) && Flaw(fs[n]).None? && (forall k :: 0 <= k < n ==> fs[k].id != fs[n].id) ==>
              WellFormed(fs[..n + 1])
    ensures WellFormed(fs) ==>
              IdFits(fs[n].id) && Flaw(fs[n]).None? && forall k :: 0 <= k < n ==> fs[k].id != fs[n].id
  {
  }

  lemma ParentsNext(fs: seq<Folder>, n: nat)
    requires n < |fs| && WellFormed(fs[..n])
    ensures ParentsOf(fs[..n + 1]) == ParentsOf(fs[..n])[fs[n].id := fs[n].parent]
    ensures fs[n].id in ParentsOf(fs[..n]) <==> exists k :: 0 <= k < n && fs[k].id == fs[n].id
  {
    assert fs[..n + 1][..n] == fs[..n];
    ParentsHave(fs[..n]);
    NewId(fs, n);
  }

  /** Each folder as it came, or with its name trimmed. */
  ghost predicate OnlyTrimmed(fs: seq<Folder>, was: seq<Folder>) {
    |fs| == |was| && forall k :: 0 <= k < |fs| ==> fs[k] == was[k] || fs[k] == Tidied(was[k])
  }

  /** Those up to here with their names trimmed, and the rest as they came. */
  ghost predicate TrimmedTo(fs: seq<Folder>, was: seq<Folder>, n: nat) {
    && |fs| == |was| && (forall k :: 0 <= k < n && k < |fs| ==> fs[k] == Tidied(was[k]))
    && (forall k :: n <= k < |fs| ==> fs[k] == was[k])
  }

  /** Checks each folder on its own and trims its name, collecting the parents. */
  method TidyFolders(folders: array<Folder>) returns (ps: Parents, problem: Option<Problem>)
    requires folders.Length <= MAX_FOLDERS
    modifies folders
    ensures OnlyTrimmed(folders[..], old(folders[..]))
    ensures problem.None? <==> WellFormed(old(folders[..]))
    ensures problem.None? ==> ps == ParentsOf(old(folders[..]))
                              && TrimmedTo(folders[..], old(folders[..]), folders.Length)
    ensures problem.Some? ==> problem.value in {IdInvalid, IdDuplicate, NameRequired, NameTooLong, AccentInvalid}
    ensures problem.Some? ==>
              exists i :: 0 <= i < folders.Length && WellFormed(old(folders[..])[..i])
                && (problem == Some(IdInvalid) <==> !IdFits(old(folders[i]).id))
                && (problem == Some(IdDuplicate) ==> exists k :: 0 <= k < i && old(folders[k]).id == old(folders[i]).id)
                && (problem.value !in {IdInvalid, IdDuplicate} ==> problem == Flaw(old(folders[i])))
  {
    hide WellFormed, ParentsOf, IdFits, AccentFits, Trim;
    ps := map[];
    ghost var was := folders[..];
    NoFolders(was);
    for i := 0 to folders.Length
      invariant TrimmedTo(folders[..], was, i)
      invariant WellFormed(was[..i]) && ps == ParentsOf(was[..i])
    {
      WellFormedNext(was, i);
      ParentsNext(was, i);
      var folder := folders[i];
      assert folder == was[i];
      if !IdFits(folder.id) {
        return ps, Some(IdInvalid);
      }
      if folder.id in ps {
        return ps, Some(IdDuplicate);
      }
      ghost var before := folders[..];
      folders[i] := folder.(name := Trim(folder.name));
      assert folders[..] == before[i := Tidied(was[i])];
      if Flaw(folder).Some? {
        return ps, Flaw(folder);
      }
      ps := ps[folder.id := folder.parent];
    }
    assert was[..|was|] == was;
    problem := None;
  }

  lemma NoFolders(fs: seq<Folder>)
    ensures WellFormed(fs[..0]) && ParentsOf(fs[..0]) == map[]
  {
  }

  // ---------------------------------------------------------------- in words

  /** What is asked of each folder, character by character. */
  lemma WellFormedInWords(fs: seq<Folder>)
    ensures WellFormed(fs)
            <==> && |fs| <= 500
                 && (forall i, j :: 0 <= i < j < |fs| ==> fs[i].id != fs[j].id)
                 && forall i :: 0 <= i < |fs| ==>
                      && 1 <= |fs[i].id| <= 64 && 1 <= |Trim(fs[i].name)| <= 200 && |fs[i].accent| <= 32
                      && (forall c :: c in fs[i].id ==>
                            'A' <= c <= 'Z' || 'a' <= c <= 'z' || '0' <= c <= '9' || c == '_' || c == '-')
                      && (forall c :: c in fs[i].accent ==> 'a' <= c <= 'z' || '0' <= c <= '9' || c == '-')
    ensures forall i :: 0 <= i < |fs| ==>
              && (Flaw(fs[i]) == Some(NameRequired) <==> Trim(fs[i].name) == "")
              && (Flaw(fs[i]) == Some(NameTooLong) <==> |Trim(fs[i].name)| > 200)
              && Flaw(fs[i]) in {None, Some(NameRequired), Some(NameTooLong), Some(AccentInvalid)}
  {
    hide Trim;
    forall i | 0 <= i < |fs|
      ensures IdFits(fs[i].id) <==> && 1 <= |fs[i].id| <= 64
                                    && forall c :: c in fs[i].id ==> 'A' <= c <= 'Z' || 'a' <= c <= 'z'
                                                                     || '0' <= c <= '9' || c == '_' || c == '-'
      ensures AccentFits(fs[i].accent) <==> && |fs[i].accent| <= 32
                                            && forall c :: c in fs[i].accent ==>
                                                 'a' <= c <= 'z' || '0' <= c <= '9' || c == '-'
    {
      assert forall k :: 0 <= k < |fs[i].id| ==> fs[i].id[k] in fs[i].id;
      assert forall k :: 0 <= k < |fs[i].accent| ==> fs[i].accent[k] in fs[i].accent;
    }
  }

  /** Places of folders from this one up to one at the top, each the next one's child. */
  ghost predicate Way(fs: seq<Folder>, i: nat, up: seq<nat>) {
    && up != [] && up[0] == i && (forall k :: 0 <= k < |up| ==> up[k] < |fs|)
    && (forall k :: 0 <= k < |up| - 1 ==> fs[up[k]].parent == fs[up[k + 1]].id)
    && fs[up[|up| - 1]].parent == ""
  }

  ghost predicate HasWay(fs: seq<Folder>, i: nat, depth: nat) {
    exists up :: Way(fs, i, up) && |up| <= depth
  }

  lemma {:induction false} RootedHasWay(fs: seq<Folder>, i: nat, n: nat) returns (up: seq<nat>)
    requires Indexes(ParentsOf(fs), fs) && i < |fs| && Rooted(ParentsOf(fs), fs[i].parent, n)
    ensures Way(fs, i, up) && |up| == n + 1
    decreases n
  {
    up := [i];
    if n > 0 {
      assert HasId(fs, fs[i].parent);
      var j :| 0 <= j < |fs| && fs[j].id == fs[i].parent;
      var rest := RootedHasWay(fs, j, n - 1);
      up := [i] + rest;
    }
  }

  lemma {:induction false} WayIsRooted(fs: seq<Folder>, i: nat, up: seq<nat>)
    requires Indexes(ParentsOf(fs), fs) && "" !in ParentsOf(fs) && Way(fs, i, up)
    ensures i < |fs| && |up| >= 1 && Rooted(ParentsOf(fs), fs[i].parent, |up| - 1)
    decreases |up|
  {
    if |up| > 1 {
      assert fs[up[0]].parent == fs[up[0 + 1]].id;
      assert Way(fs, up[1], up[1..]);
      WayIsRooted(fs, up[1], up[1..]);
    }
  }

  /** A forest in words: from each folder a way of at most so many folders leads to one at the top. */
  lemma ForestInWords(fs: seq<Folder>, depth: nat)
    requires WellFormed(fs)
    ensures Forest(fs, depth) <==> forall i :: 0 <= i < |fs| ==> HasWay(fs, i, depth)
  {
    hide Way, Rooted, ParentsOf, Trim, IdFits, AccentFits;
    NoEmptyId(fs);
    ParentsHave(fs);
    forall i | 0 <= i < |fs|
      ensures Shallow(ParentsOf(fs), fs[i].parent, depth) <==> HasWay(fs, i, depth)
    {
      if Shallow(ParentsOf(fs), fs[i].parent, depth) {
        var n: nat :| n < depth && Rooted(ParentsOf(fs), fs[i].parent, n);
        var up := RootedHasWay(fs, i, n);
      }
      if HasWay(fs, i, depth) {
        var up :| Way(fs, i, up) && |up| <= depth;
        WayIsRooted(fs, i, up);
      }
    }
  }

  lemma TidyingKeepsParents(fs: seq<Folder>, was: seq<Folder>)
    requires TrimmedTo(fs, was, |was|)
    ensures |fs| == |was| && forall i :: 0 <= i < |was| ==> fs[i].parent == was[i].parent
  {
  }

  /** A folder that names a parent which is not there. */
  ghost predicate StuckAt(fs: seq<Folder>, k: int) {
    0 <= k < |fs| && fs[k].parent != "" && forall j :: 0 <= j < |fs| ==> fs[j].id != fs[k].parent
  }

  /** Where a climb gets stuck, some folder names a parent that is not there. */
  lemma {:induction false} StuckAtAFolder(fs: seq<Folder>, i: nat, n: nat, p: string)
    requires Indexes(ParentsOf(fs), fs) && i < |fs| && Leads(ParentsOf(fs), fs[i].parent, n, p)
    requires p != "" && p !in ParentsOf(fs)
    ensures exists k :: StuckAt(fs, k)
    decreases n
  {
    if n > 0 {
      assert HasId(fs, fs[i].parent);
      var j :| 0 <= j < |fs| && fs[j].id == fs[i].parent;
      StuckAtAFolder(fs, j, n - 1, p);
    } else {
      assert StuckAt(fs, i);
    }
  }

  /** What one climb says of the folder it started from. */
  lemma ClimbSays(fs: seq<Folder>, i: nat, depth: nat, problem: Option<Problem>)
    requires WellFormed(fs) && i < |fs|
    requires problem.None? ==> depth >= 1 && Rooted(ParentsOf(fs), fs[i].parent, depth - 1)
    requires problem.Some? ==> forall n: nat :: !Rooted(ParentsOf(fs), fs[i].parent, n)
    requires problem == Some(ParentUnknown) ==>
               exists n: nat, p :: Leads(ParentsOf(fs), fs[i].parent, n, p) && p != "" && p !in ParentsOf(fs)
    ensures Shallow(ParentsOf(fs), fs[i].parent, MAX_DEPTH) <==> problem.None? && depth <= MAX_DEPTH
    ensures problem.None? && depth > 8 ==> exists up :: Way(fs, i, up) && |up| > 8
    ensures problem == Some(ParentUnknown) ==> exists k :: StuckAt(fs, k)
  {
    hide Way, Rooted, Leads, ParentsOf, StuckAt, Trim, IdFits, AccentFits;
    ParentsHave(fs);
    if problem.None? && depth > MAX_DEPTH {
      DeepIsNotShallow(ParentsOf(fs), fs[i].parent, depth - 1);
      var up := RootedHasWay(fs, i, depth - 1);
    }
    if problem == Some(ParentUnknown) {
      var n: nat, p :| Leads(ParentsOf(fs), fs[i].parent, n, p) && p != "" && p !in ParentsOf(fs);
      StuckAtAFolder(fs, i, n, p);
    }
  }

  /**
   * Accepts exactly well-formed folders whose parents form a forest of at most 8 levels, and trims every name of those.
   * It answers that a parent is unknown, that there is a cycle or that a folder is too deep only when that is so.
   */
  method CheckFolders(folders: array<Folder>) returns (problem: Option<Problem>)
    modifies folders
    ensures OnlyTrimmed(folders[..], old(folders[..]))
    ensures problem.None? <==> WellFormed(old(folders[..])) && Forest(old(folders[..]), 8)
    ensures problem.None? ==>
              forall k :: 0 <= k < folders.Length ==>
                folders[k] == old(folders[k]).(name := Trim(old(folders[k]).name))
    ensures problem == Some(TooMany) <==> folders.Length > 500
    ensures problem == Some(Cycle) ==> HasCycle(ParentsOf(old(folders[..])))
    ensures problem == Some(TooDeep) ==> exists i, up :: Way(old(folders[..]), i, up) && |up| > 8
    ensures problem == Some(ParentUnknown) ==> exists k :: StuckAt(old(folders[..]), k)
  {
    hide Rooted, Leads, ParentsOf, HasCycle, WellFormed, Trim, Way, Indexes, Shallow, StuckAt;
    assert WellFormed(folders[..]) ==> folders.Length <= MAX_FOLDERS by { WellFormedInWords(folders[..]); }
    if folders.Length > MAX_FOLDERS {
      return Some(TooMany);
    }
    ghost var was := folders[..];
    var ps;
    ps, problem := TidyFolders(folders);
    if problem.Some? {
      return;
    }
    NoEmptyId(was);
    ghost var tidy := folders[..];
    TidyingKeepsParents(tidy, was);
    hide TrimmedTo, OnlyTrimmed;
    for i := 0 to folders.Length
      invariant folders[..] == tidy
      invariant forall k :: 0 <= k < i ==> Shallow(ps, was[k].parent, MAX_DEPTH)
    {
      assert folders[i] == tidy[i];
      var depth;
      depth, problem := Climb(ps, folders[i].parent, folders.Length);
      ClimbSays(was, i, depth, problem);
      if problem.Some? {
        return;
      }
      if depth > MAX_DEPTH {
        ghost var up :| Way(was, i, up) && |up| > 8;
        return Some(TooDeep);
      }
    }
    return None;
  }

  lemma DeepIsNotShallow(ps: Parents, p: string, n: nat)
    requires Rooted(ps, p, n) && n >= MAX_DEPTH
    ensures !Shallow(ps, p, MAX_DEPTH)
  {
    if Shallow(ps, p, MAX_DEPTH) {
      var m: nat :| m < MAX_DEPTH && Rooted(ps, p, m);
      OneDepth(ps, p, m, n);
    }
  }

  lemma NoEmptyId(fs: seq<Folder>)
    requires WellFormed(fs)
    ensures "" !in ParentsOf(fs) && |ParentsOf(fs)| == |fs|
  {
    ParentsHave(fs);
  }

  /** A folder whose way up goes round is never accepted: the check cannot miss a cycle. */
  lemma CyclesAreRefused(fs: seq<Folder>, i: nat, n: nat, loop: nat, p: string)
    requires WellFormed(fs) && i < |fs| && loop >= 1
    requires Leads(ParentsOf(fs), fs[i].parent, n, p) && Leads(ParentsOf(fs), p, loop, p)
    ensures !Forest(fs, MAX_DEPTH)
  {
    if Forest(fs, MAX_DEPTH) {
      var ps := ParentsOf(fs);
      assert Shallow(ps, fs[i].parent, MAX_DEPTH);
      var m: nat :| m < MAX_DEPTH && Rooted(ps, fs[i].parent, m);
      NoEmptyId(fs);
      RootedAbove(ps, fs[i].parent, n, p, m);
      RootedFrom(ps, fs[i].parent, n, p, m);
      LoopsForEver(ps, p, loop, m - n);
    }
  }

  lemma {:induction false} LoopsForEver(ps: Parents, p: string, loop: nat, m: nat)
    requires loop >= 1 && Leads(ps, p, loop, p) && "" !in ps
    ensures !Rooted(ps, p, m)
    decreases m
  {
    if Rooted(ps, p, m) {
      RootedAbove(ps, p, loop, p, m);
      RootedFrom(ps, p, loop, p, m);
      LoopsForEver(ps, p, loop, m - loop);
    }
  }
}
