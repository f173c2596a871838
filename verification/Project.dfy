/** Incremental compilation of a project against compilation from scratch. */
module Project {
  import opened Wrappers

  /** A path, numbered in the order in which discovery sorts paths. */
  type Path = nat

  datatype SourceFile = SourceFile(path: Path, source: string, profile: nat)

  /** What discovery and the metadata loaders deliver. */
  datatype Input = Input(files: seq<SourceFile>, schema: nat, security: nat, defaultProfile: nat)

  datatype Item = Item(sourceId: nat, text: string)

  datatype Ast = Ast(classes: seq<Item>, triggers: seq<Item>, methods: seq<Item>, statements: seq<Item>)

  /** Language profiles by source id, with a default for other sources. */
  datatype Profiles = Profiles(default_: nat, bySource: map<nat, nat>) {
    function ForSource(id: nat): nat {
      if id in bySource then bySource[id] else default_
    }
  }

  /** What the checker found, and the profiles it passes on to the interpreter. */
  datatype Program = Program(checked: string, profiles: Profiles)

  type Error = string

  /** The passes and hashes a compilation is made of. */
  datatype Toolchain = Toolchain(
    parse: (string, nat) -> Result<Ast, Error>,
    validate: (Path, Ast) -> Option<Error>,
    check: (Ast, nat, Profiles) -> Result<string, Error>,
    sourceHash: string -> nat,
    fingerprint: (string, nat) -> nat)

  ghost predicate Injective(t: Toolchain) {
    && (forall a, b :: t.sourceHash(a) == t.sourceHash(b) ==> a == b)
    && (forall a, p, b, q :: t.fingerprint(a, p) == t.fingerprint(b, q) ==> a == b && p == q)
  }

  ghost function SourceIds(ast: Ast): set<nat> {
    set item | item in ast.classes + ast.triggers + ast.methods + ast.statements :: item.sourceId
  }

  /** Parsing marks everything with the source id it is given. */
  ghost predicate Stamps(t: Toolchain) {
    forall source, id :: t.parse(source, id).Ok? ==> SourceIds(t.parse(source, id).value) <= {id}
  }

  /** The checker looks a profile up only for the source id of something in the program. */
  ghost predicate LooksUpBySource(t: Toolchain) {
    forall ast, schema, p: Profiles, q: Profiles ::
      (forall id :: id in SourceIds(ast) ==> p.ForSource(id) == q.ForSource(id)) ==>
        t.check(ast, schema, p) == t.check(ast, schema, q)
  }

  ghost predicate Faithful(t: Toolchain) {
    Injective(t) && Stamps(t) && LooksUpBySource(t)
  }

  predicate Sorted(files: seq<SourceFile>) {
    forall i, j :: 0 <= i < j < |files| ==> files[i].path < files[j].path
  }

  // ---------------------------------------------------------------- from scratch

  function Join(a: Ast, b: Ast): Ast {
    Ast(a.classes + b.classes, a.triggers + b.triggers, a.methods + b.methods, a.statements + b.statements)
  }

  const EMPTY := Ast([], [], [], [])

  function ParseFile(t: Toolchain, file: SourceFile, id: nat): Result<Ast, Error> {
    var ast :- t.parse(file.source, id);
    var problem := t.validate(file.path, ast);
    if problem.Some? then Err(problem.value) else Ok(ast)
  }

  ghost predicate Assigns(ids: map<Path, nat>, files: seq<SourceFile>) {
    forall i :: 0 <= i < |files| ==> files[i].path in ids
  }

  /** Every file parsed, in order, and the results joined. */
  function ParseAll(t: Toolchain, files: seq<SourceFile>, ids: map<Path, nat>): Result<Ast, Error>
    requires Assigns(ids, files)
  {
    if files == [] then Ok(EMPTY)
    else
      var n := |files| - 1;
      var front :- ParseAll(t, files[..n], ids);
      var last :- ParseFile(t, files[n], ids[files[n].path]);
      Ok(Join(front, last))
  }

  // ---------------------------------------------------------------- what is merged

  datatype Kind = ClassItems | TriggerItems | MethodItems | StatementItems

  function ItemsOf(kind: Kind, ast: Ast): seq<Item> {
    match kind
    case ClassItems => ast.classes
    case TriggerItems => ast.triggers
    case MethodItems => ast.methods
    case StatementItems => ast.statements
  }

  /** How many items of a kind the first `i` files have. */
  function Offset(kind: Kind, asts: seq<Ast>, i: nat): nat
    requires i <= |asts|
  {
    if i == 0 then 0 else Offset(kind, asts, i - 1) + |ItemsOf(kind, asts[i - 1])|
  }

  /** The items of each kind are those of all files, each once, file by file: between the offsets of a file
      and of the next lie the items of that file, and nothing comes after the last. */
  ghost predicate InFileOrder(merged: Ast, asts: seq<Ast>) {
    forall kind :: KindInFileOrder(merged, asts, kind)
  }

  ghost predicate KindInFileOrder(merged: Ast, asts: seq<Ast>, kind: Kind) {
    |ItemsOf(kind, merged)| == Offset(kind, asts, |asts|) && forall i :: 0 <= i < |asts| ==> Stretch(merged, asts, kind, i)
  }

  ghost predicate Stretch(merged: Ast, asts: seq<Ast>, kind: Kind, i: nat)
    requires i < |asts|
  {
    var from, to := Offset(kind, asts, i), Offset(kind, asts, i + 1);
    to <= |ItemsOf(kind, merged)| && ItemsOf(kind, merged)[from..to] == ItemsOf(kind, asts[i])
  }

  lemma {:induction false} OffsetSame(kind: Kind, asts: seq<Ast>, more: seq<Ast>, i: nat)
    requires i <= |asts| <= |more| && more[..|asts|] == asts
    ensures Offset(kind, more, i) == Offset(kind, asts, i)
  {
    if i > 0 {
      OffsetSame(kind, asts, more, i - 1);
      assert more[i - 1] == more[..|asts|][i - 1];
    }
  }

  lemma EmptyInOrder()
    ensures InFileOrder(EMPTY, [])
  {
  }

  lemma JoinKinds(a: Ast, b: Ast, kind: Kind)
    ensures ItemsOf(kind, Join(a, b)) == ItemsOf(kind, a) + ItemsOf(kind, b)
  {
  }

  lemma JoinStretch(merged: Ast, asts: seq<Ast>, last: Ast, kind: Kind, i: nat)
    requires i < |asts| && Stretch(merged, asts, kind, i)
    ensures Stretch(Join(merged, last), asts + [last], kind, i)
  {
    JoinKinds(merged, last, kind);
    hide Join, ItemsOf;
    var more := asts + [last];
    assert more[..|asts|] == asts && more[i] == asts[i];
    OffsetSame(kind, asts, more, i);
    OffsetSame(kind, asts, more, i + 1);
    hide Offset;
  }

  lemma LastStretch(merged: Ast, asts: seq<Ast>, last: Ast, kind: Kind)
    requires |ItemsOf(kind, merged)| == Offset(kind, asts, |asts|)
    ensures Stretch(Join(merged, last), asts + [last], kind, |asts|)
  {
    JoinKinds(merged, last, kind);
    hide Join, ItemsOf;
    var more := asts + [last];
    assert more[..|asts|] == asts;
    OffsetSame(kind, asts, more, |asts|);
  }

  lemma JoinKindInOrder(merged: Ast, asts: seq<Ast>, last: Ast, kind: Kind)
    requires InFileOrder(merged, asts)
    ensures KindInFileOrder(Join(merged, last), asts + [last], kind)
  {
    assert KindInFileOrder(merged, asts, kind);
    var more := asts + [last];
    assert more[..|asts|] == asts;
    JoinKinds(merged, last, kind);
    OffsetSame(kind, asts, more, |asts|);
    hide Join, ItemsOf, Stretch;
    forall i | 0 <= i < |more| ensures Stretch(Join(merged, last), more, kind, i) {
      if i < |asts| { JoinStretch(merged, asts, last, kind, i); } else { LastStretch(merged, asts, last, kind); }
    }
  }

  lemma JoinInOrder(merged: Ast, asts: seq<Ast>, last: Ast)
    requires InFileOrder(merged, asts)
    ensures InFileOrder(Join(merged, last), asts + [last])
  {
    hide Join, KindInFileOrder;
    forall kind ensures KindInFileOrder(Join(merged, last), asts + [last], kind) {
      JoinKindInOrder(merged, asts, last, kind);
    }
  }

  /** The file parses to this under its id and passes its own validation. */
  predicate Parsed(t: Toolchain, file: SourceFile, id: nat, ast: Ast) {
    t.parse(file.source, id) == Ok(ast) && t.validate(file.path, ast) == None
  }

  /** The file is rejected with this error by the parser or else by its own validation. */
  predicate Rejected(t: Toolchain, file: SourceFile, id: nat, e: Error) {
    match t.parse(file.source, id)
    case Err(error) => e == error
    case Ok(ast) => t.validate(file.path, ast) == Some(e)
  }

  ghost predicate AllParsed(t: Toolchain, files: seq<SourceFile>, ids: map<Path, nat>, asts: seq<Ast>)
    requires Assigns(ids, files)
  {
    |asts| == |files| && forall i :: 0 <= i < |files| ==> Parsed(t, files[i], ids[files[i].path], asts[i])
  }

  /** The error is that of the first file that is rejected. */
  ghost predicate FirstRejected(t: Toolchain, files: seq<SourceFile>, ids: map<Path, nat>, e: Error)
    requires Assigns(ids, files)
  {
    exists i: nat, asts :: i < |files| && Assigns(ids, files[..i]) && AllParsed(t, files[..i], ids, asts)
                           && Rejected(t, files[i], ids[files[i].path], e)
  }

  /** Parsing succeeds exactly when every file does, and merges what they parse to in file order; it fails
      with the error of the first file that is rejected. */
  lemma {:induction false} ParseAllMerges(t: Toolchain, files: seq<SourceFile>, ids: map<Path, nat>)
    requires Assigns(ids, files)
    ensures var r := ParseAll(t, files, ids);
            if r.Ok? then exists asts :: AllParsed(t, files, ids, asts) && InFileOrder(r.value, asts)
            else FirstRejected(t, files, ids, r.error)
    decreases |files|
  {
    hide InFileOrder, Join;
    if files == [] {
      EmptyInOrder();
      assert AllParsed(t, files, ids, []);
    } else {
      var n := |files| - 1;
      var front := files[..n];
      ParseAllMerges(t, front, ids);
      var r := ParseAll(t, front, ids);
      if r.Ok? {
        var asts :| AllParsed(t, front, ids, asts) && InFileOrder(r.value, asts);
        var last := ParseFile(t, files[n], ids[files[n].path]);
        if last.Ok? {
          JoinInOrder(r.value, asts, last.value);
          assert AllParsed(t, files, ids, asts + [last.value]) by {
            assert forall i :: 0 <= i < n ==> files[i] == front[i];
          }
        } else {
          assert AllParsed(t, files[..n], ids, asts) && Rejected(t, files[n], ids[files[n].path], last.error);
        }
      } else {
        var i: nat, asts :| i < |front| && Assigns(ids, front[..i]) && AllParsed(t, front[..i], ids, asts)
                            && Rejected(t, front[i], ids[front[i].path], r.error);
        assert front[..i] == files[..i] && front[i] == files[i];
      }
    }
  }

  function ProfilesBySource(files: seq<SourceFile>, ids: map<Path, nat>): map<nat, nat>
    requires Assigns(ids, files)
  {
    if files == [] then map[]
    else
      var n := |files| - 1;
      ProfilesBySource(files[..n], ids)[ids[files[n].path] := files[n].profile]
  }

  function Sources(files: seq<SourceFile>, ids: map<Path, nat>): map<nat, (Path, string)>
    requires Assigns(ids, files)
  {
    if files == [] then map[]
    else
      var n := |files| - 1;
      Sources(files[..n], ids)[ids[files[n].path] := (files[n].path, files[n].source)]
  }

  /** Compilation without any cache, under an assignment of source ids. */
  function FromScratch(t: Toolchain, input: Input, ids: map<Path, nat>): Result<Program, Error>
    requires Assigns(ids, input.files)
  {
    var ast :- ParseAll(t, input.files, ids);
    var profiles := Profiles(input.defaultProfile, ProfilesBySource(input.files, ids));
    var checked :- t.check(ast, input.schema, profiles);
    Ok(Program(checked, profiles))
  }

  /** A compilation from scratch checks the merged files, under profiles with the given default. */
  lemma FromScratchChecks(t: Toolchain, input: Input, ids: map<Path, nat>)
    requires Assigns(ids, input.files)
    ensures var r := FromScratch(t, input, ids);
            if r.Ok? then
              exists asts, merged ::
                && AllParsed(t, input.files, ids, asts) && InFileOrder(merged, asts)
                && t.check(merged, input.schema, r.value.profiles) == Ok(r.value.checked)
                && r.value.profiles.default_ == input.defaultProfile
            else
              || FirstRejected(t, input.files, ids, r.error)
              || exists asts, merged, profiles: Profiles ::
                   && AllParsed(t, input.files, ids, asts) && InFileOrder(merged, asts)
                   && t.check(merged, input.schema, profiles) == Err(r.error) && profiles.default_ == input.defaultProfile
  {
    ParseAllMerges(t, input.files, ids);
    hide ParseAll, AllParsed, InFileOrder, FirstRejected, ProfilesBySource;
  }

  /** Different files have different ids. */
  ghost predicate InjectiveIds(ids: map<Path, nat>, files: seq<SourceFile>) {
    && Assigns(ids, files)
    && forall i, j :: 0 <= i < |files| && 0 <= j < |files| && ids[files[i].path] == ids[files[j].path] ==>
         files[i].path == files[j].path
  }

  lemma {:induction false} ParseAllFails(t: Toolchain, files: seq<SourceFile>, ids: map<Path, nat>, i: nat, e: Error)
    requires Assigns(ids, files) && i < |files| && Assigns(ids, files[..i])
    requires ParseAll(t, files[..i], ids).Ok? && ParseFile(t, files[i], ids[files[i].path]) == Err(e)
    ensures ParseAll(t, files, ids) == Err(e)
    decreases |files|
  {
    var n := |files| - 1;
    if i < n {
      assert files[..n][..i] == files[..i];
      ParseAllFails(t, files[..n], ids, i, e);
    }
  }

  /** Only the ids of the files themselves matter. */
  lemma {:induction false} SameIds(t: Toolchain, files: seq<SourceFile>, a: map<Path, nat>, b: map<Path, nat>)
    requires Assigns(a, files) && Assigns(b, files)
    requires forall i :: 0 <= i < |files| ==> a[files[i].path] == b[files[i].path]
    ensures ParseAll(t, files, a) == ParseAll(t, files, b)
    ensures ProfilesBySource(files, a) == ProfilesBySource(files, b) && Sources(files, a) == Sources(files, b)
    decreases |files|
  {
    if files != [] {
      SameIds(t, files[..|files| - 1], a, b);
    }
  }

  // ---------------------------------------------------------------- fingerprints

  function Fingerprints(t: Toolchain, files: seq<SourceFile>): map<Path, nat> {
    if files == [] then map[]
    else
      var n := |files| - 1;
      Fingerprints(t, files[..n])[files[n].path := t.fingerprint(files[n].source, files[n].profile)]
  }

  lemma {:induction false} FingerprintsAt(t: Toolchain, files: seq<SourceFile>, i: nat)
    requires Sorted(files) && i < |files|
    ensures files[i].path in Fingerprints(t, files)
    ensures Fingerprints(t, files)[files[i].path] == t.fingerprint(files[i].source, files[i].profile)
    decreases |files|
  {
    var n := |files| - 1;
    if i < n {
      assert files[..n][i] == files[i];
      FingerprintsAt(t, files[..n], i);
    }
  }

  lemma {:induction false} FingerprintKeys(t: Toolchain, files: seq<SourceFile>, p: Path)
    requires p in Fingerprints(t, files)
    ensures exists i :: 0 <= i < |files| && files[i].path == p
    decreases |files|
  {
    var n := |files| - 1;
    if files[n].path != p {
      FingerprintKeys(t, files[..n], p);
      var i :| 0 <= i < n && files[..n][i].path == p;
      assert files[i].path == p;
    }
  }

  /** Sorted file lists with the same fingerprints are the same list. */
  lemma {:induction false} FingerprintsDetermine(t: Toolchain, a: seq<SourceFile>, b: seq<SourceFile>)
    requires Injective(t) && Sorted(a) && Sorted(b) && Fingerprints(t, a) == Fingerprints(t, b)
    ensures a == b
    decreases |a|
  {
    var f := Fingerprints(t, a);
    if a == [] {
      if b != [] { FingerprintsAt(t, b, 0); }
    } else if b == [] {
      FingerprintsAt(t, a, 0);
    } else {
      var n, m := |a| - 1, |b| - 1;
      FingerprintsAt(t, a, n);
      FingerprintsAt(t, b, m);
      FingerprintKeys(t, b, a[n].path);
      FingerprintKeys(t, a, b[m].path);
      assert a[n] == b[m];
      FrontFingerprints(t, a);
      FrontFingerprints(t, b);
      FingerprintsDetermine(t, a[..n], b[..m]);
      assert a == a[..n] + [a[n]] && b == b[..m] + [b[m]];
    }
  }

  lemma FrontFingerprints(t: Toolchain, files: seq<SourceFile>)
    requires Sorted(files) && files != []
    ensures Fingerprints(t, files[..|files| - 1]) == Fingerprints(t, files) - {files[|files| - 1].path}
  {
    var n := |files| - 1;
    var front := Fingerprints(t, files[..n]);
    if files[n].path in front {
      FingerprintKeys(t, files[..n], files[n].path);
    }
  }

  // ---------------------------------------------------------------- the compiler

  datatype CachedUnit = CachedUnit(hash: nat, sourceId: nat, source: string, ast: Ast)

  datatype Report = Report(parsed: seq<Path>, reused: seq<Path>)

  datatype Compilation = Compilation(program: Program, report: Report, sources: map<nat, (Path, string)>)

  type Owners = map<nat, Path>

  /** A cached unit is what parsing its source under its id gives, and its id belongs to the path. */
  ghost predicate UnitOk(t: Toolchain, p: Path, u: CachedUnit, owners: Owners) {
    && u.hash == t.sourceHash(u.source)
    && ParseFile(t, SourceFile(p, u.source, 0), u.sourceId) == Ok(u.ast)
    && u.sourceId in owners && owners[u.sourceId] == p
  }

  ghost predicate UnitsOk(t: Toolchain, units: map<Path, CachedUnit>, owners: Owners) {
    forall p :: p in units ==> UnitOk(t, p, units[p], owners)
  }

  ghost predicate OwnersOk(owners: Owners, next: nat) {
    forall id :: id in owners ==> id < next
  }

  /** The units of the files, keyed by path. */
  function UnitIds(units: map<Path, CachedUnit>): map<Path, nat> {
    map p | p in units :: units[p].sourceId
  }

  ghost predicate HasUnits(files: seq<SourceFile>, units: map<Path, CachedUnit>) {
    forall i :: 0 <= i < |files| ==> files[i].path in units && units[files[i].path].source == files[i].source
  }

  lemma {:induction false} UnitsParse(t: Toolchain, files: seq<SourceFile>, units: map<Path, CachedUnit>, owners: Owners)
    requires UnitsOk(t, units, owners) && HasUnits(files, units)
    ensures Assigns(UnitIds(units), files)
    ensures ParseAll(t, files, UnitIds(units)) == Ok(MergedFrom(files, units))
    ensures InjectiveIds(UnitIds(units), files)
    decreases |files|
  {
    if files != [] {
      var n := |files| - 1;
      UnitsParse(t, files[..n], units, owners);
      assert UnitOk(t, files[n].path, units[files[n].path], owners);
    }
    forall i, j | 0 <= i < |files| && 0 <= j < |files| && UnitIds(units)[files[i].path] == UnitIds(units)[files[j].path]
      ensures files[i].path == files[j].path
    {
      assert UnitOk(t, files[i].path, units[files[i].path], owners) && UnitOk(t, files[j].path, units[files[j].path], owners);
    }
  }

  function MergedFrom(files: seq<SourceFile>, units: map<Path, CachedUnit>): Ast
    requires forall i :: 0 <= i < |files| ==> files[i].path in units
  {
    if files == [] then EMPTY
    else Join(MergedFrom(files[..|files| - 1], units), units[files[|files| - 1].path].ast)
  }

  function UnitAsts(files: seq<SourceFile>, units: map<Path, CachedUnit>): (r: seq<Ast>)
    requires forall i :: 0 <= i < |files| ==> files[i].path in units
    ensures |r| == |files| && forall i :: 0 <= i < |files| ==> r[i] == units[files[i].path].ast
  {
    seq(|files|, i requires 0 <= i < |files| => units[files[i].path].ast)
  }

  lemma {:induction false} MergedInOrder(files: seq<SourceFile>, units: map<Path, CachedUnit>)
    requires forall i :: 0 <= i < |files| ==> files[i].path in units
    ensures InFileOrder(MergedFrom(files, units), UnitAsts(files, units))
    decreases |files|
  {
    if files == [] {
      EmptyInOrder();
      assert UnitAsts(files, units) == [];
    } else {
      var n := |files| - 1;
      MergedInOrder(files[..n], units);
      hide InFileOrder, Join;
      JoinInOrder(MergedFrom(files[..n], units), UnitAsts(files[..n], units), units[files[n].path].ast);
      assert UnitAsts(files, units) == UnitAsts(files[..n], units) + [units[files[n].path].ast];
    }
  }

  /** The compilation is that of an earlier input under ids that still belong to its files. */
  ghost predicate Remembers(t: Toolchain, input: Input, ids: map<Path, nat>, owners: Owners, c: Compilation) {
    && Sorted(input.files) && Assigns(ids, input.files)
    && (forall i :: 0 <= i < |input.files| ==> ids[input.files[i].path] in owners && owners[ids[input.files[i].path]] == input.files[i].path)
    && FromScratch(t, input, ids) == Ok(c.program)
    && c.sources == Sources(input.files, ids)
  }

  /** The report names every file exactly once. */
  ghost predicate Partition(files: seq<SourceFile>, report: Report) {
    && (forall i :: 0 <= i < |files| ==> (files[i].path in report.parsed) != (files[i].path in report.reused))
    && (forall p :: p in report.parsed || p in report.reused ==> exists i :: 0 <= i < |files| && files[i].path == p)
    && |report.parsed| + |report.reused| == |files|
  }

  /** The ids a failed compilation was on the way to. */
  ghost function IdsOnTheWay(files: seq<SourceFile>, chosen: map<Path, nat>, next: nat): map<Path, nat> {
    map p | p in PathsOf(files) :: if p in chosen then chosen[p] else next + p
  }

  ghost function PathsOf(files: seq<SourceFile>): set<Path> {
    set i | 0 <= i < |files| :: files[i].path
  }

  lemma OnTheWayInjective(files: seq<SourceFile>, chosen: map<Path, nat>, owners: Owners, next: nat)
    requires OwnersOk(owners, next)
    requires Owned(chosen, owners)
    ensures InjectiveIds(IdsOnTheWay(files, chosen, next), files)
  {
    var ids := IdsOnTheWay(files, chosen, next);
    forall i, j | 0 <= i < |files| && 0 <= j < |files| && ids[files[i].path] == ids[files[j].path]
      ensures files[i].path == files[j].path
    {
      var p, q := files[i].path, files[j].path;
      assert p in PathsOf(files) && q in PathsOf(files);
      assert p in chosen ==> chosen[p] < next;
      assert q in chosen ==> chosen[q] < next;
      assert p in chosen && q in chosen ==> owners[chosen[p]] == owners[chosen[q]];
    }
  }

  /** A file that fails under its id fails the compilation from scratch with the same error. */
  lemma FailsFromScratch(t: Toolchain, input: Input, i: nat, chosen: map<Path, nat>, owners: Owners, next: nat, e: Error)
    requires i < |input.files| && OwnersOk(owners, next)
    requires Owned(chosen, owners)
    requires Assigns(chosen, input.files[..i + 1]) && Assigns(chosen, input.files[..i])
    requires ParseAll(t, input.files[..i], chosen).Ok?
    requires ParseFile(t, input.files[i], chosen[input.files[i].path]) == Err(e)
    ensures var ids := IdsOnTheWay(input.files, chosen, next);
            InjectiveIds(ids, input.files) && FromScratch(t, input, ids) == Err(e)
  {
    var files := input.files;
    var ids := IdsOnTheWay(files, chosen, next);
    OnTheWayInjective(files, chosen, owners, next);
    forall j | 0 <= j <= i
      ensures files[j].path in ids && files[j].path in chosen && ids[files[j].path] == chosen[files[j].path]
    {
      assert files[..i + 1][j] == files[j];
      assert files[j].path in PathsOf(files);
    }
    SameIds(t, files[..i], chosen, ids);
    ParseAllFails(t, files, ids, i, e);
  }

  ghost predicate Owned(ids: map<Path, nat>, owners: Owners) {
    forall p :: p in ids ==> ids[p] in owners && owners[ids[p]] == p
  }

  lemma OwnedInjective(files: seq<SourceFile>, ids: map<Path, nat>, owners: Owners)
    requires Assigns(ids, files)
    requires forall i :: 0 <= i < |files| ==> ids[files[i].path] in owners && owners[ids[files[i].path]] == files[i].path
    ensures InjectiveIds(ids, files)
  {
    forall i, j | 0 <= i < |files| && 0 <= j < |files| && ids[files[i].path] == ids[files[j].path]
      ensures files[i].path == files[j].path
    {
      assert owners[ids[files[i].path]] == owners[ids[files[j].path]];
    }
  }

  function Paths(files: seq<SourceFile>): (r: seq<Path>)
    ensures |r| == |files| && forall i :: 0 <= i < |r| ==> r[i] == files[i].path
  {
    seq(|files|, i requires 0 <= i < |files| => files[i].path)
  }

  lemma AllReused(files: seq<SourceFile>)
    ensures Partition(files, Report([], Paths(files)))
  {
    var paths := Paths(files);
    assert forall i :: 0 <= i < |files| ==> paths[i] in paths;
  }

  lemma PartitionStep(files: seq<SourceFile>, file: SourceFile, report: Report, next: Report)
    requires Sorted(files + [file]) && Partition(files, report)
    requires next == report.(parsed := report.parsed + [file.path]) || next == report.(reused := report.reused + [file.path])
    ensures Partition(files + [file], next)
  {
    var all := files + [file];
    assert all[|files|] == file && forall i :: 0 <= i < |files| ==> all[i] == files[i];
    assert file.path !in report.parsed && file.path !in report.reused;
    assert forall p :: p in next.parsed <==> p in report.parsed || (p == file.path && next.parsed != report.parsed);
    assert forall p :: p in next.reused <==> p in report.reused || (p == file.path && next.reused != report.reused);
  }

  lemma SortedPrefixes(files: seq<SourceFile>)
    requires Sorted(files)
    ensures forall i :: 0 <= i <= |files| ==> Sorted(files[..i])
  {
  }

  lemma NothingRefreshed(units: map<Path, CachedUnit>)
    ensures HasUnits([], units) && Partition([], Report([], []))
  {
  }

  lemma OneMoreUnit(files: seq<SourceFile>, file: SourceFile, units: map<Path, CachedUnit>, unit: CachedUnit)
    requires HasUnits(files, units) && unit.source == file.source && Sorted(files + [file])
    ensures HasUnits(files + [file], units[file.path := unit])
  {
    var all := files + [file];
    assert all[|files|] == file && forall i :: 0 <= i < |files| ==> all[i] == files[i];
  }

  /** The units gathered so far and the id just chosen, as an assignment. */
  lemma FailedAssignment(t: Toolchain, files: seq<SourceFile>, i: nat, units: map<Path, CachedUnit>, owners: Owners, id: nat)
    requires Sorted(files) && i < |files| && UnitsOk(t, units, owners) && HasUnits(files[..i], units)
    requires id in owners && owners[id] == files[i].path
    ensures var chosen := UnitIds(units)[files[i].path := id];
            && Owned(chosen, owners) && Assigns(chosen, files[..i]) && Assigns(chosen, files[..i + 1])
            && ParseAll(t, files[..i], chosen).Ok?
  {
    var chosen := UnitIds(units)[files[i].path := id];
    UnitsParse(t, files[..i], units, owners);
    forall p | p in chosen
      ensures chosen[p] in owners && owners[chosen[p]] == p
    {
      if p != files[i].path { assert UnitOk(t, p, units[p], owners); }
    }
    forall j | 0 <= j < i
      ensures files[..i][j].path in chosen && chosen[files[..i][j].path] == UnitIds(units)[files[..i][j].path]
    {
      assert files[j].path < files[i].path;
    }
    SameIds(t, files[..i], UnitIds(units), chosen);
  }

  class ProjectCompiler {
    const t: Toolchain
    var units: map<Path, CachedUnit>
    var nextSourceId: nat
    var lastFingerprints: map<Path, nat>
    var lastSchema: nat
    var lastSecurity: nat
    var lastCompilation: Option<Compilation>

    /** Which path each id was ever given to, and what was last compiled under which ids. */
    ghost var owners: Owners
    ghost var lastInput: Input
    ghost var lastIds: map<Path, nat>

    constructor (t: Toolchain)
      ensures this.t == t && Valid() && lastCompilation.None? && owners == map[]
    {
      this.t := t;
      units, nextSourceId, lastFingerprints, lastSchema, lastSecurity, lastCompilation := map[], 1, map[], 0, 0, None;
      owners, lastInput, lastIds := map[], Input([], 0, 0, 0), map[];
    }

    ghost predicate Valid()
      reads this
    {
      && UnitsOk(t, units, owners) && OwnersOk(owners, nextSourceId)
      && (lastCompilation.Some? ==>
            && Remembers(t, lastInput, lastIds, owners, lastCompilation.value)
            && lastFingerprints == Fingerprints(t, lastInput.files)
            && lastSchema == lastInput.schema && lastSecurity == lastInput.security)
    }

    /** The same files, profiles and metadata as in the last successful compilation. */
    predicate Unchanged(input: Input)
      reads this
    {
      && Fingerprints(t, input.files) == lastFingerprints
      && input.schema == lastSchema && input.security == lastSecurity && lastCompilation.Some?
    }

    /** The result is that of compiling the current files from scratch under some ids, one per file,
        success or failure alike, whatever was compiled before; only the stored default profile, which no
        file of the project is looked up under, may be an earlier one. Ids are never passed on from one
        path to another, and every file is looked up under its own profile. */
    method Compile(input: Input) returns (r: Result<Compilation, Error>, ghost ids: map<Path, nat>)
      requires Valid() && Faithful(t) && Sorted(input.files)
      modifies this
      ensures Valid() && (forall id :: id in old(owners) ==> id in owners && owners[id] == old(owners)[id])
      ensures InjectiveIds(ids, input.files)
      ensures if r.Ok? then
                && FromScratch(t, input, ids) == Ok(WithDefault(r.value.program, input.defaultProfile))
                && r.value.sources == Sources(input.files, ids)
              else FromScratch(t, input, ids) == Err(r.error)
      ensures r.Ok? ==> forall i :: 0 <= i < |input.files| ==>
                          r.value.program.profiles.ForSource(ids[input.files[i].path]) == input.files[i].profile
      ensures r.Ok? ==> Partition(input.files, r.value.report) && Unchanged(input)
      ensures r.Ok? && !old(Unchanged(input)) ==> r.value.program.profiles.default_ == input.defaultProfile
    {
      if Unchanged(input) {
        r, ids := ReuseLast(input);
      } else {
        r, ids := CompileChanged(input);
      }
      if r.Ok? {
        OwnProfiles(t, input, ids, r.value.program);
      }
    }

    /** The fast path: the last compilation again, with every file reported as reused. */
    method ReuseLast(input: Input) returns (r: Result<Compilation, Error>, ghost ids: map<Path, nat>)
      requires Valid() && Faithful(t) && Sorted(input.files) && Unchanged(input)
      ensures r.Ok? && InjectiveIds(ids, input.files)
      ensures FromScratch(t, input, ids) == Ok(WithDefault(r.value.program, input.defaultProfile))
      ensures r.value.sources == Sources(input.files, ids) && Partition(input.files, r.value.report)
    {
      hide UnitsOk, Remembers, Fingerprints, FromScratch, Sources, Partition, Sorted, Faithful, InjectiveIds;
      RememberedResult(t, input, lastInput, lastIds, owners, lastCompilation.value);
      ids := lastIds;
      AllReused(input.files);
      r := Ok(lastCompilation.value.(report := Report([], Paths(input.files))));
    }

    method CompileChanged(input: Input) returns (r: Result<Compilation, Error>, ghost ids: map<Path, nat>)
      requires Valid() && Injective(t) && Sorted(input.files)
      modifies this
      ensures Valid() && (forall id :: id in old(owners) ==> id in owners && owners[id] == old(owners)[id])
      ensures InjectiveIds(ids, input.files)
      ensures if r.Ok? then FromScratch(t, input, ids) == Ok(r.value.program) && r.value.sources == Sources(input.files, ids)
              else FromScratch(t, input, ids) == Err(r.error)
      ensures r.Ok? ==> Partition(input.files, r.value.report) && Unchanged(input)
      ensures r.Ok? ==> r.value.program.profiles.default_ == input.defaultProfile
    {
      hide UnitsOk, OwnersOk, Remembers, Fingerprints, FromScratch, Sources, Partition, HasUnits, Sorted, Injective, InjectiveIds, Owned, ParseAll;
      ghost var ownersBefore := owners;
      var failure, report, at, chosen := Refresh(input.files);
      if lastCompilation.Some? {
        StillRemembers(t, lastInput, lastIds, ownersBefore, owners, lastCompilation.value);
      }
      if failure.Some? {
        FailsFromScratch(t, input, at, chosen, owners, nextSourceId, failure.value);
        ids := IdsOnTheWay(input.files, chosen, nextSourceId);
        return Err(failure.value), ids;
      }
      r, ids := CheckMerged(input, report);
    }

    /** Drops the units of removed files, then joins and checks the rest; success is remembered. */
    method CheckMerged(input: Input, report: Report) returns (r: Result<Compilation, Error>, ghost ids: map<Path, nat>)
      requires Valid() && Sorted(input.files) && HasUnits(input.files, units) && Partition(input.files, report)
      modifies this
      ensures Valid() && owners == old(owners)
      ensures InjectiveIds(ids, input.files)
      ensures if r.Ok? then FromScratch(t, input, ids) == Ok(r.value.program) && r.value.sources == Sources(input.files, ids)
              else FromScratch(t, input, ids) == Err(r.error)
      ensures r.Ok? ==> Partition(input.files, r.value.report) && Unchanged(input)
      ensures r.Ok? ==> r.value.program.profiles.default_ == input.defaultProfile
    {
      hide UnitsOk, OwnersOk, Remembers, Fingerprints, FromScratch, Sources, Partition, HasUnits, Sorted, InjectiveIds, ParseAll,
        UnitIds, MergedFrom, ProfilesBySource, Kept, Assigns;
      var fingerprints := Fingerprints(t, input.files);
      ghost var all := units;
      units := Kept(units, fingerprints);
      StillUnits(t, input.files, all, units, owners);
      ids := UnitIds(units);
      UnitsParse(t, input.files, units, owners);
      var merged, profiles, sources := MergeUnits(input);
      var checked := t.check(merged, input.schema, profiles);
      ScratchChecks(t, input, ids, merged);
      if checked.Err? {
        return Err(checked.error), ids;
      }
      var compilation := Compilation(Program(checked.value, profiles), report, sources);
      NewlyRemembered(t, input, units, owners, compilation);
      lastFingerprints, lastSchema, lastSecurity := fingerprints, input.schema, input.security;
      lastCompilation := Some(compilation);
      lastInput, lastIds := input, ids;
      r := Ok(compilation);
    }

    /** Parses every file whose cached unit is missing or out of date; a failure leaves the units
        parsed so far in the cache. */
    method Refresh(files: seq<SourceFile>)
      returns (failure: Option<Error>, report: Report, ghost at: nat, ghost chosen: map<Path, nat>)
      requires UnitsOk(t, units, owners) && OwnersOk(owners, nextSourceId) && Injective(t) && Sorted(files)
      modifies this`units, this`nextSourceId, this`owners
      ensures UnitsOk(t, units, owners) && OwnersOk(owners, nextSourceId)
      ensures forall id :: id in old(owners) ==> id in owners && owners[id] == old(owners)[id]
      ensures failure.None? ==> HasUnits(files, units) && Partition(files, report)
      ensures failure.Some? ==>
                && at < |files| && Owned(chosen, owners)
                && Assigns(chosen, files[..at]) && Assigns(chosen, files[..at + 1])
                && ParseAll(t, files[..at], chosen).Ok?
                && files[at].path in chosen && ParseFile(t, files[at], chosen[files[at].path]) == Err(failure.value)
    {
      hide UnitsOk, UnitOk, ParseAll, ParseFile, HasUnits, Partition, Sorted, Owned;
      SortedPrefixes(files);
      NothingRefreshed(units);
      assert files[..0] == [];
      report := Report([], []);
      failure, at, chosen := None, 0, map[];
      var i := 0;
      while i < |files|
        invariant 0 <= i <= |files|
        invariant UnitsOk(t, units, owners) && OwnersOk(owners, nextSourceId)
        invariant forall id :: id in old(owners) ==> id in owners && owners[id] == old(owners)[id]
        invariant HasUnits(files[..i], units) && Partition(files[..i], report)
      {
        var file := files[i];
        var hash := t.sourceHash(file.source);
        assert files[..i] + [file] == files[..i + 1];
        if file.path in units && units[file.path].hash == hash {
          UnitHash(t, units, owners, file.path);
          OneMoreUnit(files[..i], file, units, units[file.path]);
          assert units[file.path := units[file.path]] == units;
          PartitionStep(files[..i], file, report, report.(reused := report.reused + [file.path]));
          report := report.(reused := report.reused + [file.path]);
          i := i + 1;
          continue;
        }
        var id := nextSourceId;
        if file.path in units {
          UnitHash(t, units, owners, file.path);
          id := units[file.path].sourceId;
        } else {
          NewOwner(t, units, owners, nextSourceId, file.path);
          owners := owners[id := file.path];
          nextSourceId := nextSourceId + 1;
        }
        var ast := ParseFile(t, file, id);
        if ast.Err? {
          FailedAssignment(t, files, i, units, owners, id);
          return Some(ast.error), report, i, UnitIds(units)[file.path := id];
        }
        NewUnit(t, units, owners, file, id, ast.value);
        OneMoreUnit(files[..i], file, units, CachedUnit(hash, id, file.source, ast.value));
        units := units[file.path := CachedUnit(hash, id, file.source, ast.value)];
        PartitionStep(files[..i], file, report, report.(parsed := report.parsed + [file.path]));
        report := report.(parsed := report.parsed + [file.path]);
        i := i + 1;
      }
      assert files[..i] == files;
    }

    /** Joins the units and tabulates profiles and sources, in file order. */
    method MergeUnits(input: Input) returns (merged: Ast, profiles: Profiles, sources: map<nat, (Path, string)>)
      requires HasUnits(input.files, units) && Assigns(UnitIds(units), input.files)
      ensures merged == MergedFrom(input.files, units)
      ensures InFileOrder(merged, UnitAsts(input.files, units))
      ensures profiles == Profiles(input.defaultProfile, ProfilesBySource(input.files, UnitIds(units)))
      ensures sources == Sources(input.files, UnitIds(units))
    {
      merged, profiles, sources := EMPTY, Profiles(input.defaultProfile, map[]), map[];
      var files := input.files;
      var i := 0;
      while i < |files|
        invariant 0 <= i <= |files|
        invariant merged == MergedFrom(files[..i], units)
        invariant profiles == Profiles(input.defaultProfile, ProfilesBySource(files[..i], UnitIds(units)))
        invariant sources == Sources(files[..i], UnitIds(units))
      {
        assert files[..i + 1][..i] == files[..i];
        var unit := units[files[i].path];
        merged := Join(merged, unit.ast);
        profiles := profiles.(bySource := profiles.bySource[unit.sourceId := files[i].profile]);
        sources := sources[unit.sourceId := (files[i].path, unit.source)];
        i := i + 1;
      }
      assert files[..i] == files;
      MergedInOrder(files, units);
    }
  }

  lemma UnitHash(t: Toolchain, units: map<Path, CachedUnit>, owners: Owners, p: Path)
    requires UnitsOk(t, units, owners) && p in units
    ensures units[p].hash == t.sourceHash(units[p].source)
    ensures units[p].sourceId in owners && owners[units[p].sourceId] == p
  {
    assert UnitOk(t, p, units[p], owners);
  }

  lemma NewOwner(t: Toolchain, units: map<Path, CachedUnit>, owners: Owners, id: nat, p: Path)
    requires UnitsOk(t, units, owners) && OwnersOk(owners, id)
    ensures UnitsOk(t, units, owners[id := p]) && OwnersOk(owners[id := p], id + 1)
  {
    forall q | q in units
      ensures UnitOk(t, q, units[q], owners[id := p])
    {
      assert UnitOk(t, q, units[q], owners);
    }
  }

  lemma NewUnit(t: Toolchain, units: map<Path, CachedUnit>, owners: Owners, file: SourceFile, id: nat, ast: Ast)
    requires UnitsOk(t, units, owners) && id in owners && owners[id] == file.path
    requires ParseFile(t, file, id) == Ok(ast)
    ensures UnitsOk(t, units[file.path := CachedUnit(t.sourceHash(file.source), id, file.source, ast)], owners)
  {
    var next := units[file.path := CachedUnit(t.sourceHash(file.source), id, file.source, ast)];
    forall q | q in next
      ensures UnitOk(t, q, next[q], owners)
    {
      if q != file.path { assert UnitOk(t, q, units[q], owners); }
    }
  }

  function WithDefault(program: Program, default_: nat): Program {
    program.(profiles := program.profiles.(default_ := default_))
  }

  /** A remembered compilation answers for every input with the same files and metadata. */
  lemma RememberedResult(t: Toolchain, input: Input, last: Input, ids: map<Path, nat>, owners: Owners, c: Compilation)
    requires Faithful(t) && Sorted(input.files) && Remembers(t, last, ids, owners, c)
    requires Fingerprints(t, input.files) == Fingerprints(t, last.files) && input.schema == last.schema
    ensures InjectiveIds(ids, input.files)
    ensures FromScratch(t, input, ids) == Ok(WithDefault(c.program, input.defaultProfile))
    ensures c.sources == Sources(input.files, ids)
  {
    FingerprintsDetermine(t, input.files, last.files);
    OwnedInjective(input.files, ids, owners);
    DefaultUnread(t, last, input, ids);
  }

  /** Neither the security fixture nor the default profile has a part in what the checker finds. */
  lemma DefaultUnread(t: Toolchain, a: Input, b: Input, ids: map<Path, nat>)
    requires Faithful(t) && Assigns(ids, a.files) && a.files == b.files && a.schema == b.schema
    ensures var x, y := FromScratch(t, a, ids), FromScratch(t, b, ids);
            if x.Ok? then y == Ok(WithDefault(x.value, b.defaultProfile)) else y == x
  {
    var ast := ParseAll(t, a.files, ids);
    if ast.Ok? {
      var p := Profiles(a.defaultProfile, ProfilesBySource(a.files, ids));
      var q := Profiles(b.defaultProfile, ProfilesBySource(b.files, ids));
      ParsedIds(t, a.files, ids);
      assert forall id :: id in SourceIds(ast.value) ==> p.ForSource(id) == q.ForSource(id);
      assert t.check(ast.value, a.schema, p) == t.check(ast.value, b.schema, q);
    }
  }

  /** Everything parsed from the files of a project has a profile of its own. */
  lemma {:induction false} ParsedIds(t: Toolchain, files: seq<SourceFile>, ids: map<Path, nat>)
    requires Stamps(t) && Assigns(ids, files) && ParseAll(t, files, ids).Ok?
    ensures SourceIds(ParseAll(t, files, ids).value) <= ProfilesBySource(files, ids).Keys
    decreases |files|
  {
    if files != [] {
      var n := |files| - 1;
      ParsedIds(t, files[..n], ids);
      var id := ids[files[n].path];
      var front, last := ParseAll(t, files[..n], ids).value, ParseFile(t, files[n], id).value;
      assert last == t.parse(files[n].source, id).value && SourceIds(last) <= {id};
      JoinedIds(front, last);
    }
  }

  lemma JoinedIds(a: Ast, b: Ast)
    ensures SourceIds(Join(a, b)) <= SourceIds(a) + SourceIds(b)
  {
  }

  lemma OwnProfiles(t: Toolchain, input: Input, ids: map<Path, nat>, program: Program)
    requires InjectiveIds(ids, input.files) && Sorted(input.files)
    requires FromScratch(t, input, ids) == Ok(WithDefault(program, input.defaultProfile))
    ensures forall i :: 0 <= i < |input.files| ==> program.profiles.ForSource(ids[input.files[i].path]) == input.files[i].profile
  {
    assert program.profiles.bySource == ProfilesBySource(input.files, ids);
    forall i | 0 <= i < |input.files|
      ensures program.profiles.ForSource(ids[input.files[i].path]) == input.files[i].profile
    {
      ProfileAt(input.files, ids, i);
    }
  }

  /** The source map names each file under its id and nothing else. */
  lemma {:induction false} SourcesExactly(files: seq<SourceFile>, ids: map<Path, nat>, id: nat)
    requires InjectiveIds(ids, files) && Sorted(files)
    ensures forall i :: 0 <= i < |files| && ids[files[i].path] == id ==>
              id in Sources(files, ids) && Sources(files, ids)[id] == (files[i].path, files[i].source)
    ensures id in Sources(files, ids) ==> exists i :: 0 <= i < |files| && ids[files[i].path] == id
    decreases |files|
  {
    if files != [] {
      var n := |files| - 1;
      var front := files[..n];
      assert InjectiveIds(ids, front);
      SourcesExactly(front, ids, id);
      forall i | 0 <= i < n && ids[files[i].path] == id
        ensures ids[files[n].path] != id && id in Sources(front, ids) && Sources(front, ids)[id] == (files[i].path, files[i].source)
      {
        assert front[i] == files[i] && files[i].path < files[n].path;
      }
      if id in Sources(files, ids) && ids[files[n].path] != id {
        var i :| 0 <= i < |front| && ids[front[i].path] == id;
        assert files[i] == front[i];
      }
    }
  }

  lemma {:induction false} ProfileAt(files: seq<SourceFile>, ids: map<Path, nat>, i: nat)
    requires InjectiveIds(ids, files) && Sorted(files) && i < |files|
    ensures var profiles := ProfilesBySource(files, ids);
            ids[files[i].path] in profiles && profiles[ids[files[i].path]] == files[i].profile
    decreases |files|
  {
    var n := |files| - 1;
    if i < n {
      assert files[..n][i] == files[i];
      assert InjectiveIds(ids, files[..n]);
      ProfileAt(files[..n], ids, i);
      assert files[i].path < files[n].path;
    }
  }

  lemma StillRemembers(t: Toolchain, input: Input, ids: map<Path, nat>, before: Owners, after: Owners, c: Compilation)
    requires Remembers(t, input, ids, before, c)
    requires forall id :: id in before ==> id in after && after[id] == before[id]
    ensures Remembers(t, input, ids, after, c)
  {
    hide FromScratch;
  }

  lemma ScratchChecks(t: Toolchain, input: Input, ids: map<Path, nat>, merged: Ast)
    requires Assigns(ids, input.files) && ParseAll(t, input.files, ids) == Ok(merged)
    ensures var profiles := Profiles(input.defaultProfile, ProfilesBySource(input.files, ids));
            var checked := t.check(merged, input.schema, profiles);
            FromScratch(t, input, ids) == if checked.Ok? then Ok(Program(checked.value, profiles)) else Err(checked.error)
  {
  }

  lemma NewlyRemembered(t: Toolchain, input: Input, units: map<Path, CachedUnit>, owners: Owners, c: Compilation)
    requires UnitsOk(t, units, owners) && HasUnits(input.files, units) && Sorted(input.files)
    requires Assigns(UnitIds(units), input.files) && FromScratch(t, input, UnitIds(units)) == Ok(c.program)
    requires c.sources == Sources(input.files, UnitIds(units))
    ensures Remembers(t, input, UnitIds(units), owners, c)
  {
    hide FromScratch;
    forall i | 0 <= i < |input.files|
      ensures UnitIds(units)[input.files[i].path] in owners && owners[UnitIds(units)[input.files[i].path]] == input.files[i].path
    {
      assert UnitOk(t, input.files[i].path, units[input.files[i].path], owners);
    }
  }

  /** The units of the files that still exist. */
  function Kept(units: map<Path, CachedUnit>, fingerprints: map<Path, nat>): map<Path, CachedUnit> {
    map p | p in units && p in fingerprints :: units[p]
  }

  /** Dropping the units of removed files keeps the rest. */
  lemma StillUnits(t: Toolchain, files: seq<SourceFile>, all: map<Path, CachedUnit>, kept: map<Path, CachedUnit>, owners: Owners)
    requires UnitsOk(t, all, owners) && HasUnits(files, all) && Sorted(files)
    requires kept == Kept(all, Fingerprints(t, files))
    ensures UnitsOk(t, kept, owners) && HasUnits(files, kept)
  {
    forall q | q in kept
      ensures UnitOk(t, q, kept[q], owners)
    {
      assert UnitOk(t, q, all[q], owners);
    }
    forall i | 0 <= i < |files|
      ensures files[i].path in kept && kept[files[i].path].source == files[i].source
    {
      FingerprintsAt(t, files, i);
    }
  }
}
