/** Revisions of a policy source, created by any number of processes at once. */
module PolicyLineage {
  import opened Wrappers
  import opened Sequences

  /** An import, reduced to its lineage; `compiled` is its state now, `everCompiled` that it has a compiled pack. */
  datatype Row = Row(
    id: nat, sourceId: nat, revision: nat, supersedes: Option<nat>, contentSha256: string, compiled: bool, everCompiled: bool)

  datatype LineageError = ParentMissing | ParentNotCompiled | Unchanged | RevisionLimit | RevisionTaken

  const MAX_REVISION: nat := 0xFFFF_FFFF

  /** Where a new import belongs: its source (None for a fresh one), its revision and what it supersedes. */
  function ResolveLineage(parent: Option<Row>, contentSha256: string): Result<(Option<nat>, nat, Option<nat>), LineageError> {
    match parent
    case None => Ok((None, 1, None))
    case Some(row) =>
      if !row.compiled then Err(ParentNotCompiled)
      else if row.contentSha256 == contentSha256 then Err(Unchanged)
      else if row.revision >= MAX_REVISION then Err(RevisionLimit)
      else Ok((Some(row.sourceId), row.revision + 1, Some(row.id)))
  }

  // ---------------------------------------------------------------- concurrent creation

  /** A creator before it reads its parent, and before it inserts. */
  datatype Creator =
    | Reading(parent: Option<nat>, contentSha256: string)
    | Inserting(sourceId: Option<nat>, revision: nat, supersedes: Option<nat>, contentSha256: string)

  datatype World = World(rows: seq<Row>, creators: map<nat, Creator>)

  datatype Action =
    | Start(pid: nat, parent: Option<nat>, contentSha256: string)
    | Read(pid: nat)
    | Insert(pid: nat, freshId: nat, freshSource: nat)
    | Crash(pid: nat)
    | Compile(id: nat)
    | MarkFailure(id: nat)

  function FindRow(rows: seq<Row>, id: nat): (r: Option<Row>)
    ensures r.Some? ==> r.value in rows && r.value.id == id
    ensures r.None? ==> forall row | row in rows :: row.id != id
  {
    if rows == [] then None else if rows[0].id == id then Some(rows[0]) else FindRow(rows[1..], id)
  }

  /** The unique index over source and revision. */
  predicate Taken(rows: seq<Row>, sourceId: nat, revision: nat) {
    exists row | row in rows :: row.sourceId == sourceId && row.revision == revision
  }

  function Marked(rows: seq<Row>, id: nat, compiled: bool): (r: seq<Row>)
    ensures |r| == |rows|
  {
    seq(|rows|, i requires 0 <= i < |rows| =>
      if rows[i].id == id
      then rows[i].(compiled := compiled, everCompiled := rows[i].everCompiled || compiled) else rows[i])
  }

  /** Fresh identifiers are not in use. */
  predicate Fresh(rows: seq<Row>, id: nat, sourceId: nat) {
    forall row | row in rows :: row.id != id && row.sourceId != sourceId
  }

  function Apply(world: World, action: Action): World {
    var World(rows, creators) := world;
    match action
    case Start(pid, parent, contentSha256) =>
      if pid in creators then world else World(rows, creators[pid := Reading(parent, contentSha256)])
    case Read(pid) =>
      if pid !in creators || !creators[pid].Reading? then world
      else
        var Reading(parent, contentSha256) := creators[pid];
        var found := if parent.Some? then FindRow(rows, parent.value) else None;
        if parent.Some? && found.None? then World(rows, creators - {pid})
        else
          (match ResolveLineage(found, contentSha256)
           case Err(_) => World(rows, creators - {pid})
           case Ok((sourceId, revision, supersedes)) =>
             World(rows, creators[pid := Inserting(sourceId, revision, supersedes, contentSha256)]))
    case Insert(pid, freshId, freshSource) =>
      if pid !in creators || !creators[pid].Inserting? || !Fresh(rows, freshId, freshSource) then world
      else
        var Inserting(sourceId, revision, supersedes, contentSha256) := creators[pid];
        var source := if sourceId.Some? then sourceId.value else freshSource;
        if Taken(rows, source, revision) then World(rows, creators - {pid})
        else World(rows + [Row(freshId, source, revision, supersedes, contentSha256, false, false)], creators - {pid})
    case Crash(pid) => World(rows, creators - {pid})
    case Compile(id) => World(Marked(rows, id, true), creators)
    case MarkFailure(id) => World(Marked(rows, id, false), creators)
  }

  function Execute(world: World, actions: seq<Action>): World
    decreases |actions|
  {
    if actions == [] then world else Apply(Execute(world, actions[..|actions| - 1]), actions[|actions| - 1])
  }

  // ---------------------------------------------------------------- the invariant

  /** `parent` is what an import with these values supersedes. */
  predicate IsPredecessor(parent: Row, sourceId: nat, revision: nat, supersedes: Option<nat>, contentSha256: string) {
    && supersedes == Some(parent.id)
    && parent.sourceId == sourceId
    && parent.revision + 1 == revision
    && parent.everCompiled
    && parent.contentSha256 != contentSha256
  }

  predicate Descends(rows: seq<Row>, sourceId: nat, revision: nat, supersedes: Option<nat>, contentSha256: string) {
    exists parent | parent in rows :: IsPredecessor(parent, sourceId, revision, supersedes, contentSha256)
  }

  ghost predicate RowFits(rows: seq<Row>, row: Row) {
    && 1 <= row.revision
    && (row.compiled ==> row.everCompiled)
    && (row.revision == 1 ==> row.supersedes.None?)
    && (row.revision > 1 ==> Descends(rows, row.sourceId, row.revision, row.supersedes, row.contentSha256))
  }

  ghost predicate KeysAreUnique(rows: seq<Row>) {
    forall i, j | 0 <= i < j < |rows| ::
      && rows[i].id != rows[j].id
      && !(rows[i].sourceId == rows[j].sourceId && rows[i].revision == rows[j].revision)
  }

  ghost predicate RowsAreLinear(rows: seq<Row>) {
    KeysAreUnique(rows) && forall row | row in rows :: RowFits(rows, row)
  }

  ghost predicate CreatorFits(rows: seq<Row>, creator: Creator) {
    creator.Inserting? ==>
      && 1 <= creator.revision
      && (creator.sourceId.None? <==> creator.revision == 1)
      && (creator.revision == 1 ==> creator.supersedes.None?)
      && (creator.revision > 1 ==>
            Descends(rows, creator.sourceId.value, creator.revision, creator.supersedes, creator.contentSha256))
  }

  ghost predicate Linear(world: World) {
    && RowsAreLinear(world.rows)
    && forall pid | pid in world.creators :: CreatorFits(world.rows, world.creators[pid])
  }

  /** Marking a row keeps its lineage, and what was once compiled stays so. */
  lemma MarkedKeepsDescent(rows: seq<Row>, id: nat, compiled: bool)
    ensures forall sourceId, revision, supersedes, contentSha256 |
              Descends(rows, sourceId, revision, supersedes, contentSha256) ::
              Descends(Marked(rows, id, compiled), sourceId, revision, supersedes, contentSha256)
  {
    forall sourceId, revision, supersedes, contentSha256 |
      Descends(rows, sourceId, revision, supersedes, contentSha256)
      ensures Descends(Marked(rows, id, compiled), sourceId, revision, supersedes, contentSha256)
    {
      var i :| 0 <= i < |rows| && IsPredecessor(rows[i], sourceId, revision, supersedes, contentSha256);
      assert Marked(rows, id, compiled)[i] in Marked(rows, id, compiled);
      assert IsPredecessor(Marked(rows, id, compiled)[i], sourceId, revision, supersedes, contentSha256);
    }
  }

  lemma MarkedKeeps(world: World, id: nat, compiled: bool)
    requires Linear(world)
    ensures Linear(World(Marked(world.rows, id, compiled), world.creators))
  {
    MarkedKeepsDescent(world.rows, id, compiled);
    MarkedKeepsKeys(world.rows, id, compiled);
    var rows := Marked(world.rows, id, compiled);
    forall i | 0 <= i < |rows| ensures RowFits(rows, rows[i]) {
      assert world.rows[i] in world.rows && RowFits(world.rows, world.rows[i]);
    }
  }

  lemma MarkedKeepsKeys(rows: seq<Row>, id: nat, compiled: bool)
    requires KeysAreUnique(rows)
    ensures KeysAreUnique(Marked(rows, id, compiled))
  {
  }

  lemma MoreRowsKeepDescent(rows: seq<Row>, row: Row)
    ensures forall sourceId, revision, supersedes, contentSha256 |
              Descends(rows, sourceId, revision, supersedes, contentSha256) ::
              Descends(rows + [row], sourceId, revision, supersedes, contentSha256)
  {
    assert forall parent | parent in rows :: parent in rows + [row];
  }

  lemma AppendKeeps(rows: seq<Row>, row: Row)
    requires RowsAreLinear(rows)
    requires forall other | other in rows :: other.id != row.id
    requires !Taken(rows, row.sourceId, row.revision)
    requires 1 <= row.revision && !row.compiled && (row.revision == 1 ==> row.supersedes.None?)
    requires row.revision > 1 ==> Descends(rows, row.sourceId, row.revision, row.supersedes, row.contentSha256)
    ensures RowsAreLinear(rows + [row])
  {
    MoreRowsKeepDescent(rows, row);
    AppendKeepsKeys(rows, row);
    forall other | other in rows + [row] ensures RowFits(rows + [row], other) {
      assert other in rows ==> RowFits(rows, other);
    }
  }

  lemma AppendKeepsKeys(rows: seq<Row>, row: Row)
    requires KeysAreUnique(rows) && !Taken(rows, row.sourceId, row.revision)
    requires forall other | other in rows :: other.id != row.id
    ensures KeysAreUnique(rows + [row])
  {
    assert forall i | 0 <= i < |rows| :: rows[i] in rows;
  }

  lemma InsertKeeps(world: World, pid: nat, freshId: nat, freshSource: nat)
    requires Linear(world)
    ensures Linear(Apply(world, Insert(pid, freshId, freshSource)))
  {
    var World(rows, creators) := world;
    if pid in creators && creators[pid].Inserting? && Fresh(rows, freshId, freshSource) {
      var Inserting(sourceId, revision, supersedes, contentSha256) := creators[pid];
      var source := if sourceId.Some? then sourceId.value else freshSource;
      var row := Row(freshId, source, revision, supersedes, contentSha256, false, false);
      assert CreatorFits(rows, creators[pid]);
      MoreRowsKeepDescent(rows, row);
      if !Taken(rows, source, revision) {
        AppendKeeps(rows, row);
      }
    }
  }

  lemma ReadKeeps(world: World, pid: nat)
    requires Linear(world)
    ensures Linear(Apply(world, Read(pid)))
  {
    if pid in world.creators && world.creators[pid].Reading? {
      var Reading(parent, contentSha256) := world.creators[pid];
      var found := if parent.Some? then FindRow(world.rows, parent.value) else None;
      if found.Some? && ResolveLineage(found, contentSha256).Ok? {
        var (sourceId, revision, supersedes) := ResolveLineage(found, contentSha256).value;
        assert IsPredecessor(found.value, sourceId.value, revision, supersedes, contentSha256);
      }
    }
  }

  lemma ApplyKeeps(world: World, action: Action)
    requires Linear(world)
    ensures Linear(Apply(world, action))
  {
    match action
    case Read(pid) => ReadKeeps(world, pid);
    case Insert(pid, freshId, freshSource) => InsertKeeps(world, pid, freshId, freshSource);
    case Compile(id) => MarkedKeeps(world, id, true);
    case MarkFailure(id) => MarkedKeeps(world, id, false);
    case _ =>
  }

  lemma {:induction false} ExecuteKeeps(actions: seq<Action>)
    ensures Linear(Execute(World([], map[]), actions))
    decreases |actions|
  {
    if actions != [] {
      ExecuteKeeps(actions[..|actions| - 1]);
      ApplyKeeps(Execute(World([], map[]), actions[..|actions| - 1]), actions[|actions| - 1]);
    }
  }

  // ---------------------------------------------------------------- linear history

  function RevisionsOf(rows: seq<Row>, sourceId: nat): set<nat> {
    set row | row in rows && row.sourceId == sourceId :: row.revision
  }

  function UpTo(n: nat): (r: set<nat>)
    ensures forall k: nat :: k in r <==> 1 <= k <= n
    ensures |r| == n
  {
    if n == 0 then {} else UpTo(n - 1) + {n}
  }

  /** A set of positive numbers that has the predecessor of each is an initial segment. */
  lemma {:induction false} DownwardClosed(s: set<nat>, n: nat)
    requires forall k | k in s :: 1 <= k <= n && (k > 1 ==> k - 1 in s)
    ensures s == UpTo(|s|)
    decreases n
  {
    if n > 0 && n !in s {
      DownwardClosed(s, n - 1);
    } else if n > 0 {
      var rest := s - {n};
      DownwardClosed(rest, n - 1);
      assert |s| == |rest| + 1;
      assert |rest| > 0 ==> |rest| in rest;
      assert n > 1 ==> n - 1 in rest;
      assert s == UpTo(n);
    }
  }

  lemma {:induction false} LargestRevision(rows: seq<Row>) returns (n: nat)
    ensures forall row | row in rows :: row.revision <= n
  {
    n := 0;
    for i := 0 to |rows|
      invariant forall row | row in rows[..i] :: row.revision <= n
    {
      assert rows[..i + 1] == rows[..i] + [rows[i]];
      if rows[i].revision > n {
        n := rows[i].revision;
      }
    }
    assert rows[..|rows|] == rows;
  }

  /** As many revisions as imports: no two imports of a source share one. */
  lemma {:induction false} RevisionsCountRows(rows: seq<Row>, sourceId: nat)
    requires forall i, j | 0 <= i < j < |rows| ::
               !(rows[i].sourceId == rows[j].sourceId && rows[i].revision == rows[j].revision)
    ensures |RevisionsOf(rows, sourceId)| == |Filter((row: Row) => row.sourceId == sourceId, rows)|
  {
    if rows != [] {
      RevisionsCountRows(rows[1..], sourceId);
      assert rows == [rows[0]] + rows[1..];
      RevisionsOneMore(rows, sourceId);
    }
  }

  lemma RevisionsOneMore(rows: seq<Row>, sourceId: nat)
    requires rows != []
    requires forall i, j | 0 <= i < j < |rows| ::
               !(rows[i].sourceId == rows[j].sourceId && rows[i].revision == rows[j].revision)
    ensures |RevisionsOf(rows, sourceId)|
         == |RevisionsOf(rows[1..], sourceId)| + if rows[0].sourceId == sourceId then 1 else 0
  {
    assert rows == [rows[0]] + rows[1..];
    if rows[0].sourceId == sourceId {
      assert RevisionsOf(rows, sourceId) == RevisionsOf(rows[1..], sourceId) + {rows[0].revision};
      assert rows[0].revision !in RevisionsOf(rows[1..], sourceId);
    } else {
      assert RevisionsOf(rows, sourceId) == RevisionsOf(rows[1..], sourceId);
    }
  }

  lemma NoFork(rows: seq<Row>, i: nat, j: nat)
    requires RowsAreLinear(rows) && i < j < |rows| && rows[i].supersedes.Some?
    ensures rows[i].supersedes != rows[j].supersedes
  {
    assert rows[i] in rows && rows[j] in rows;
  }

  lemma RevisionsAreConsecutive(rows: seq<Row>, sourceId: nat)
    requires RowsAreLinear(rows)
    ensures RevisionsOf(rows, sourceId) == UpTo(|Filter((row: Row) => row.sourceId == sourceId, rows)|)
  {
    var n := LargestRevision(rows);
    RevisionsCountRows(rows, sourceId);
    forall k | k in RevisionsOf(rows, sourceId)
      ensures 1 <= k <= n && (k > 1 ==> k - 1 in RevisionsOf(rows, sourceId))
    {
      var row :| row in rows && row.sourceId == sourceId && row.revision == k;
    }
    DownwardClosed(RevisionsOf(rows, sourceId), n);
    assert RevisionsOf(rows, sourceId) == UpTo(|RevisionsOf(rows, sourceId)|);
  }

  /**
   * History is linear, however many creators raced or crashed: the imports of a source have exactly the
   * revisions 1 to n, each but the first supersedes its immediate predecessor, which had been compiled and
   * whose content differs, and no import is superseded twice.
   */
  lemma HistoryIsLinear(actions: seq<Action>, sourceId: nat)
    ensures var rows := Execute(World([], map[]), actions).rows;
            && RevisionsOf(rows, sourceId) == UpTo(|Filter((row: Row) => row.sourceId == sourceId, rows)|)
            && (forall row | row in rows && row.revision > 1 ::
                  Descends(rows, row.sourceId, row.revision, row.supersedes, row.contentSha256))
            && (forall i, j | 0 <= i < j < |rows| && rows[i].supersedes.Some? :: rows[i].supersedes != rows[j].supersedes)
  {
    ExecuteKeeps(actions);
    var rows := Execute(World([], map[]), actions).rows;
    RevisionsAreConsecutive(rows, sourceId);
    forall i, j | 0 <= i < j < |rows| && rows[i].supersedes.Some? ensures rows[i].supersedes != rows[j].supersedes {
      NoFork(rows, i, j);
    }
  }

  // ---------------------------------------------------------------- one creation

  /** What a creator that nobody races with does. */
  function Unraced(pid: nat, parent: Option<nat>, contentSha256: string, freshId: nat, freshSource: nat): seq<Action> {
    [Start(pid, parent, contentSha256), Read(pid), Insert(pid, freshId, freshSource)]
  }

  /** The row a revision of `parent`, or a first revision, becomes. */
  predicate IsRevisionOf(row: Row, parent: Option<Row>, contentSha256: string, freshId: nat, freshSource: nat) {
    && row.id == freshId && row.contentSha256 == contentSha256 && !row.compiled && !row.everCompiled
    && match parent
       case None => row.sourceId == freshSource && row.revision == 1 && row.supersedes == None
       case Some(previous) => row.sourceId == previous.sourceId && row.revision == previous.revision + 1 && row.supersedes == Some(previous.id)
  }

  /** The parent can be revised: compiled as it is now, with other content, below the limit, and not revised yet. */
  predicate Revisable(rows: seq<Row>, parent: Row, contentSha256: string) {
    && parent.compiled && parent.contentSha256 != contentSha256 && parent.revision < 0xFFFF_FFFF
    && forall row | row in rows :: !(row.sourceId == parent.sourceId && row.revision == parent.revision + 1)
  }

  lemma ExecuteUnraced(world: World, a: Action, b: Action, c: Action)
    ensures Execute(world, [a, b, c]) == Apply(Apply(Apply(world, a), b), c)
  {
    assert [a][..0] == [];
    assert Execute(world, [a]) == Apply(world, a);
    assert [a, b, c][..2] == [a, b] && [a, b][..1] == [a];
  }

  /**
   * A creation that nobody races with adds exactly one import, the first of a fresh source or the next revision
   * of its parent, if and only if there is no parent or it can be revised; otherwise it adds nothing.
   */
  lemma UnracedCreationMeaning(
    world: World, pid: nat, parent: Option<nat>, contentSha256: string, freshId: nat, freshSource: nat)
    requires Linear(world) && pid !in world.creators && Fresh(world.rows, freshId, freshSource)
    ensures var rows := Execute(world, Unraced(pid, parent, contentSha256, freshId, freshSource)).rows;
            match parent
            case None =>
              && |rows| == |world.rows| + 1 && rows[..|world.rows|] == world.rows
              && IsRevisionOf(rows[|world.rows|], None, contentSha256, freshId, freshSource)
            case Some(id) =>
              && (forall row | row in world.rows && row.id == id ::
                    if Revisable(world.rows, row, contentSha256) then
                      && |rows| == |world.rows| + 1 && rows[..|world.rows|] == world.rows
                      && IsRevisionOf(rows[|world.rows|], Some(row), contentSha256, freshId, freshSource)
                    else rows == world.rows)
              && ((forall row | row in world.rows :: row.id != id) ==> rows == world.rows)
  {
    ExecuteUnraced(world, Start(pid, parent, contentSha256), Read(pid), Insert(pid, freshId, freshSource));
    if parent.Some? {
      forall row | row in world.rows && row.id == parent.value ensures FindRow(world.rows, parent.value) == Some(row) {
        RowIsFound(world.rows, row);
      }
    }
  }

  lemma {:induction false} RowIsFound(rows: seq<Row>, row: Row)
    requires row in rows && KeysAreUnique(rows)
    ensures FindRow(rows, row.id) == Some(row)
  {
    var found := FindRow(rows, row.id);
    var i :| 0 <= i < |rows| && rows[i] == row;
    var j :| 0 <= j < |rows| && rows[j] == found.value;
    assert i == j;
  }

  /** Compiling an import and recording its failure are marked on it, and on no other. */
  lemma MarksAreRecorded(world: World, id: nat)
    ensures forall row | row in Apply(world, MarkFailure(id)).rows && row.id == id :: !row.compiled
    ensures forall row | row in Apply(world, Compile(id)).rows && row.id == id :: row.compiled && row.everCompiled
    ensures forall row | row in world.rows && row.id != id ::
              row in Apply(world, MarkFailure(id)).rows && row in Apply(world, Compile(id)).rows
  {
    MarkedContents(world.rows, id, false);
    MarkedContents(world.rows, id, true);
  }

  lemma MarkedContents(rows: seq<Row>, id: nat, compiled: bool)
    ensures forall row | row in Marked(rows, id, compiled) && row.id == id ::
              row.compiled == compiled && (compiled ==> row.everCompiled)
    ensures forall row | row in rows && row.id != id :: row in Marked(rows, id, compiled)
  {
    var marked := Marked(rows, id, compiled);
    forall i | 0 <= i < |rows| && rows[i].id != id ensures rows[i] in marked {
      assert marked[i] == rows[i];
    }
  }
}
