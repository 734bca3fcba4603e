/** Revisioned editing of activation files that other programs also write: every
    save names the revision it was read under, and a revision works once. */
module PackActivation {
  import opened Results
  import opened PackErrors
  import Json = JsonStrings
  import Options = PackOptions
  import Shader = ShaderConfig
  import TextLines

  type Revision = nat

  const MAX_SNAPSHOTS := 64

  /** The most bytes that are read from a file. Outside Windows nothing bounds what is
      written. */
  const MAX_OPTIONS := 1024 * 1024

  datatype Runtime = Iris | Oculus

  /** The file an operation edits: `options.txt`, or the configuration of a runtime. */
  datatype Kind = Resource | ShaderOf(runtime: Runtime)
  datatype Target = Target(root: string, id: string, kind: Kind)

  datatype Request = Packs(selected: seq<string>) | Shaders(setting: Shader.Setting)

  datatype Saved = Saved(target: Target, original: string)

  // ----- what a file says and how a request changes it -----

  predicate Fits(kind: Kind, request: Request) { kind.Resource? <==> request.Packs? }

  /** The request a file already satisfies, when it can be read. */
  function Reads(kind: Kind, text: string): PackResult<Request> {
    match kind
    case Resource =>
      (match Options.ParseOptions(text)
       case Success(selected) => Success(Packs(selected))
       case Failure(e) => Failure(e))
    case ShaderOf(_) =>
      (match Shader.ParseShader(text)
       case Success(setting) => Success(Shaders(setting))
       case Failure(e) => Failure(e))
  }

  predicate Small(text: string) { Options.Utf8Length(text) <= MAX_OPTIONS }

  /** Reading the file from disk: a larger one is refused before it is parsed. */
  function Loads(kind: Kind, text: string): PackResult<Request> {
    if Small(text) then Reads(kind, text) else Failure(Format)
  }

  /** The write command's own check of a request. */
  predicate Allowed(kind: Kind, text: string, request: Request, available: seq<string>)
    requires Fits(kind, request) && Reads(kind, text).Success?
  {
    match request
    case Packs(selected) => Options.ValidSelection(selected, Options.ParseOptions(text).value, available)
    case Shaders(setting) => Shader.Admits(setting, available, Shader.ParseShader(text).value.pack)
  }

  /** The text a save writes. A file that cannot be read is never rewritten. */
  function Rewritten(kind: Kind, text: string, request: Request): string {
    match request
    case Packs(selected) =>
      var r := Options.ReplaceOptions(text, selected);
      if kind.Resource? && r.Success? then r.value else text
    case Shaders(setting) =>
      var r := Shader.ReplaceShader(text, setting);
      if kind.ShaderOf? && r.Success? then r.value else text
  }

  /** An allowed request is what the rewritten file says. */
  lemma RewrittenReads(kind: Kind, text: string, request: Request, available: seq<string>)
    requires Fits(kind, request) && Reads(kind, text).Success?
    requires kind.Resource? ==> forall a :: a in available ==> Options.Installed(a)
    requires Allowed(kind, text, request, available)
    ensures Reads(kind, Rewritten(kind, text, request)) == Success(request)
  {
    hide Options.ParseOptions, Shader.ParseShader, Options.ValidSelection, Shader.Admits, Options.Installed;
    match request
    case Packs(selected) => Options.GuardedWrite(text, selected, available);
    case Shaders(setting) => Shader.AdmittedRoundTrip(text, setting, available);
  }

  // ----- the revision tables -----

  datatype Tables = Tables(packs: map<Revision, Saved>, shaders: map<Revision, Saved>, sequence: nat)

  function Table(t: Tables, kind: Kind): map<Revision, Saved> { if kind.Resource? then t.packs else t.shaders }

  function WithTable(t: Tables, kind: Kind, m: map<Revision, Saved>): Tables {
    if kind.Resource? then t.(packs := m) else t.(shaders := m)
  }

  /** A full table is emptied before the next revision enters it. */
  function Issue(t: Tables, saved: Saved): Tables {
    var m := Table(t, saved.target.kind);
    WithTable(t, saved.target.kind, (if |m| >= MAX_SNAPSHOTS then map[] else m)[t.sequence := saved]).(sequence := t.sequence + 1)
  }

  function Take(t: Tables, kind: Kind, revision: Revision): Tables {
    WithTable(t, kind, Table(t, kind) - {revision})
  }

  function Lookup(t: Tables, kind: Kind, revision: Revision): Option<Saved> {
    var m := Table(t, kind);
    if revision in m then Some(m[revision]) else None
  }

  class RevisionTables {
    var snapshots: map<Revision, Saved>
    var shaderSnapshots: map<Revision, Saved>
    var sequence: nat

    ghost function State(): Tables
      reads this
    {
      Tables(snapshots, shaderSnapshots, sequence)
    }

    constructor ()
      ensures State() == Tables(map[], map[], 0)
    {
      snapshots, shaderSnapshots, sequence := map[], map[], 0;
    }

    method NextNumber() returns (n: nat)
      modifies this
      ensures n == old(sequence) && State() == old(State()).(sequence := n + 1)
    {
      n := sequence;
      sequence := sequence + 1;
    }

    method Snapshot(saved: Saved) returns (revision: Revision)
      modifies this
      ensures revision == old(sequence) && State() == Issue(old(State()), saved)
      ensures old(|snapshots| <= MAX_SNAPSHOTS && |shaderSnapshots| <= MAX_SNAPSHOTS) ==>
                |snapshots| <= MAX_SNAPSHOTS && |shaderSnapshots| <= MAX_SNAPSHOTS
    {
      revision := NextNumber();
      if saved.target.kind.Resource? {
        if |snapshots| >= MAX_SNAPSHOTS {
          snapshots := map[];
        }
        snapshots := snapshots[revision := saved];
      } else {
        if |shaderSnapshots| >= MAX_SNAPSHOTS {
          shaderSnapshots := map[];
        }
        shaderSnapshots := shaderSnapshots[revision := saved];
      }
    }

    method Remove(kind: Kind, revision: Revision) returns (saved: Option<Saved>)
      modifies this
      ensures saved == Lookup(old(State()), kind, revision) && State() == Take(old(State()), kind, revision)
    {
      saved := None;
      if kind.Resource? {
        if revision in snapshots { saved := Some(snapshots[revision]); }
        snapshots := snapshots - {revision};
      } else {
        if revision in shaderSnapshots { saved := Some(shaderSnapshots[revision]); }
        shaderSnapshots := shaderSnapshots - {revision};
      }
    }
  }

  // ----- operations in flight -----

  /** A file under outside edits; every replacement gives it a new identity. */
  datatype File = File(inode: nat, text: string)

  datatype Write = Write(target: Target, revision: Revision, request: Request)

  datatype Phase =
    | Reading(target: Target)
    | ReadDone(saved: Saved)
    | Asked(w: Write)
    | Taken(w: Write, saved: Saved)
    | Compared(w: Write, saved: Saved)
    | Approved(w: Write, saved: Saved)
    | Opened(w: Write, saved: Saved, inode: nat)
    | Replaced(saved: Saved)

  /** One replacement, with the file before and after and the requests then active. */
  datatype Replacement = Replacement(w: Write, before: string, after: string, readers: nat)

  datatype State = State(
    files: map<Target, File>,
    tables: Tables,
    readers: nat,
    // the operation that holds the exclusive guard
    active: Option<Phase>,
    // history
    issued: map<Revision, Saved>,
    taken: seq<Revision>,
    replaced: seq<Replacement>)

  datatype Action =
    | BeginRequest
    | EndRequest
    | Edit(target: Target, file: File)
    | Erase(target: Target)
    | BeginRead(target: Target)
    | ReadFile
    | BeginWrite(w: Write)
    | TakeRevision
    | Compare
    | Approve(available: seq<string>)
    | Open
    | Rename(inode: nat)
    | IssueRevision
    | Abandon

  const INITIAL := State(map[], Tables(map[], map[], 0), 0, None, map[], [], [])

  ghost predicate Enabled(s: State, a: Action) {
    match a
    case BeginRequest => s.active.None?
    case EndRequest => s.readers > 0
    case Edit(target, file) => true
    case Erase(target) => true
    case BeginRead(target) => s.active.None? && s.readers == 0
    case ReadFile => s.active.Some? && s.active.value.Reading? && s.active.value.target in s.files
                     && Loads(s.active.value.target.kind, s.files[s.active.value.target].text).Success?
    case BeginWrite(w) => s.active.None? && s.readers == 0 && Fits(w.target.kind, w.request)
    case TakeRevision => s.active.Some? && s.active.value.Asked?
    case Compare => s.active.Some? && s.active.value.Taken? && FileSays(s, s.active.value.saved)
    case Approve(available) =>
      && s.active.Some? && s.active.value.Compared?
      && Fits(s.active.value.saved.target.kind, s.active.value.w.request)
      && Reads(s.active.value.saved.target.kind, s.active.value.saved.original).Success?
      && (s.active.value.saved.target.kind.Resource? ==> forall p :: p in available ==> Options.Installed(p))
      && Allowed(s.active.value.saved.target.kind, s.active.value.saved.original, s.active.value.w.request, available)
    case Open => s.active.Some? && s.active.value.Approved? && FileSays(s, s.active.value.saved)
    case Rename(inode) => s.active.Some? && s.active.value.Opened? && FileSays(s, s.active.value.saved)
                          && s.files[s.active.value.saved.target].inode == s.active.value.inode
    case IssueRevision => s.active.Some? && (s.active.value.ReadDone? || s.active.value.Replaced?)
    case Abandon => s.active.Some?
  }

  predicate FileSays(s: State, saved: Saved) {
    saved.target in s.files && s.files[saved.target].text == saved.original && Small(saved.original)
  }

  ghost function Apply(s: State, a: Action): State
    requires Enabled(s, a)
  {
    match a
    case BeginRequest => s.(readers := s.readers + 1)
    case EndRequest => s.(readers := s.readers - 1)
    case Edit(target, file) => s.(files := s.files[target := file])
    case Erase(target) => s.(files := s.files - {target})
    case BeginRead(target) => s.(active := Some(Reading(target)))
    case ReadFile =>
      var t := s.active.value.target;
      s.(active := Some(ReadDone(Saved(t, s.files[t].text))))
    case BeginWrite(w) => s.(active := Some(Asked(w)))
    case TakeRevision =>
      var w := s.active.value.w;
      var q := s.(tables := Take(s.tables, w.target.kind, w.revision));
      (match Lookup(s.tables, w.target.kind, w.revision)
       case None => q.(active := None)
       case Some(saved) =>
         q.(active := if saved.target == w.target then Some(Taken(w, saved)) else None, taken := s.taken + [w.revision]))
    case Compare => s.(active := Some(Compared(s.active.value.w, s.active.value.saved)))
    case Approve(_) => s.(active := Some(Approved(s.active.value.w, s.active.value.saved)))
    case Open =>
      var p := s.active.value;
      s.(active := Some(Opened(p.w, p.saved, s.files[p.saved.target].inode)),
         tables := s.tables.(sequence := s.tables.sequence + 1))
    case Rename(inode) =>
      var p := s.active.value;
      var t := p.saved.target;
      var after := Rewritten(t.kind, p.saved.original, p.w.request);
      s.(files := s.files[t := File(inode, after)], active := Some(Replaced(Saved(t, after))),
         replaced := s.replaced + [Replacement(p.w, s.files[t].text, after, s.readers)])
    case IssueRevision =>
      var saved := s.active.value.saved;
      s.(tables := Issue(s.tables, saved), active := None, issued := s.issued[s.tables.sequence := saved])
    case Abandon => s.(active := None)
  }

  ghost function Exec(s: State, run: seq<Action>): Option<State>
    decreases |run|
  {
    if run == [] then Some(s)
    else if !Enabled(s, run[0]) then None
    else Exec(Apply(s, run[0]), run[1..])
  }

  // ----- invariants -----

  /** A table holds revisions that were issued, with what they were issued for,
      and none that was taken. */
  ghost predicate Listed(m: map<Revision, Saved>, resource: bool, issued: map<Revision, Saved>, taken: seq<Revision>) {
    forall r :: r in m ==> r in issued && issued[r] == m[r] && r !in taken && (m[r].target.kind.Resource? <==> resource)
  }

  /** Revisions are numbered once and taken at most once. */
  ghost predicate Numbered(sequence: nat, issued: map<Revision, Saved>, taken: seq<Revision>) {
    && (forall r :: r in issued ==> r < sequence)
    && (forall r :: r in taken ==> r in issued)
    && (forall i, j :: 0 <= i < j < |taken| ==> taken[i] != taken[j])
  }

  ghost predicate TablesIssued(s: State) {
    && Listed(s.tables.packs, true, s.issued, s.taken)
    && Listed(s.tables.shaders, false, s.issued, s.taken)
    && Numbered(s.tables.sequence, s.issued, s.taken)
    && |s.tables.packs| <= MAX_SNAPSHOTS && |s.tables.shaders| <= MAX_SNAPSHOTS
  }

  /** Everything that was issued could be read. */
  ghost predicate IssuedReadable(s: State) {
    forall r :: r in s.issued ==> Reads(s.issued[r].target.kind, s.issued[r].original).Success?
  }

  predicate HasSaved(p: Phase) { p.Taken? || p.Compared? || p.Approved? || p.Opened? }

  /** A write past its lookup works for the target and text of its revision. */
  ghost predicate ActiveMatches(s: State) {
    s.active.Some? ==>
      var p := s.active.value;
      && s.readers == 0
      && (HasSaved(p) ==>
            && p.w.revision in s.issued && s.issued[p.w.revision] == p.saved && p.saved.target == p.w.target
            && p.w.revision in s.taken && Fits(p.w.target.kind, p.w.request))
      && (p.Asked? ==> Fits(p.w.target.kind, p.w.request))
      && (p.ReadDone? || p.Replaced? ==> Reads(p.saved.target.kind, p.saved.original).Success?)
      && (p.Approved? || p.Opened? ==>
            && Reads(p.saved.target.kind, p.saved.original).Success?
            && Reads(p.saved.target.kind, Rewritten(p.saved.target.kind, p.saved.original, p.w.request)) == Success(p.w.request))
  }

  /** A replacement found exactly the text its revision was issued for, at the
      place it was issued for, while no request was active; the new file is that
      text rewritten, and says what was asked. */
  ghost predicate Faithful(s: State, r: Replacement) {
    && r.w.revision in s.issued && r.w.revision in s.taken
    && s.issued[r.w.revision] == Saved(r.w.target, r.before)
    && r.readers == 0
    && Fits(r.w.target.kind, r.w.request) && Loads(r.w.target.kind, r.before).Success?
    && r.after == Rewritten(r.w.target.kind, r.before, r.w.request)
    && Reads(r.w.target.kind, r.after) == Success(r.w.request)
  }

  /** No two replacements used the same revision, and the write in progress has not
      replaced anything yet. */
  ghost predicate ReplacedOnce(s: State) {
    && (forall i, j :: 0 <= i < j < |s.replaced| ==> s.replaced[i].w.revision != s.replaced[j].w.revision)
    && (forall i :: 0 <= i < |s.replaced| ==> s.replaced[i].w.revision in s.taken)
    && (s.active.Some? && HasSaved(s.active.value) ==>
          forall i :: 0 <= i < |s.replaced| ==> s.replaced[i].w.revision != s.active.value.w.revision)
  }

  ghost predicate Inv(s: State) {
    && TablesIssued(s) && IssuedReadable(s) && ActiveMatches(s) && ReplacedOnce(s)
    && (forall i :: 0 <= i < |s.replaced| ==> Faithful(s, s.replaced[i]))
  }

  lemma IssuedListed(m: map<Revision, Saved>, resource: bool, s: State, saved: Saved)
    requires Listed(m, resource, s.issued, s.taken) && Numbered(s.tables.sequence, s.issued, s.taken)
    ensures var n := s.tables.sequence;
      var issued := s.issued[n := saved];
      && Listed(m, resource, issued, s.taken) && Listed(map[], resource, issued, s.taken)
      && Numbered(n + 1, issued, s.taken)
      && ((saved.target.kind.Resource? <==> resource) ==>
            Listed(m[n := saved], resource, issued, s.taken) && Listed(map[n := saved], resource, issued, s.taken))
      && |m[n := saved]| <= |m| + 1
  {
    assert s.tables.sequence !in s.issued;
    assert s.tables.sequence !in s.taken;
  }

  lemma IssueTables(s: State, saved: Saved)
    requires TablesIssued(s)
    ensures TablesIssued(s.(tables := Issue(s.tables, saved), active := None, issued := s.issued[s.tables.sequence := saved]))
  {
    hide Listed, Numbered;
    IssuedListed(s.tables.packs, true, s, saved);
    IssuedListed(s.tables.shaders, false, s, saved);
  }

  lemma TakeTables(s: State)
    requires TablesIssued(s) && Enabled(s, TakeRevision)
    ensures TablesIssued(Apply(s, TakeRevision))
  {
    hide Listed, Numbered, Reads, Small, Rewritten, Allowed;
    var w := s.active.value.w;
    if Lookup(s.tables, w.target.kind, w.revision).Some? {
      TakenListed(s, w.target.kind, w.revision);
    } else {
      assert Table(s.tables, w.target.kind) - {w.revision} == Table(s.tables, w.target.kind);
    }
  }

  lemma TakenListed(s: State, kind: Kind, r: Revision)
    requires TablesIssued(s) && r in Table(s.tables, kind)
    ensures var taken := s.taken + [r];
      var t := Take(s.tables, kind, r);
      && Listed(t.packs, true, s.issued, taken) && Listed(t.shaders, false, s.issued, taken)
      && Numbered(t.sequence, s.issued, taken)
      && |t.packs| <= |s.tables.packs| && |t.shaders| <= |s.tables.shaders|
  {
    assert kind.Resource? ==> r !in s.tables.shaders;
    assert !kind.Resource? ==> r !in s.tables.packs;
    Fewer(Table(s.tables, kind), r);
    TakenNumbered(s.tables.sequence, s.issued, s.taken, r);
    hide Numbered;
  }

  lemma Fewer(m: map<Revision, Saved>, r: Revision)
    ensures |m - {r}| <= |m|
  {
    assert (m - {r}).Keys <= m.Keys;
  }

  lemma TakenNumbered(sequence: nat, issued: map<Revision, Saved>, taken: seq<Revision>, r: Revision)
    requires Numbered(sequence, issued, taken) && r in issued && r !in taken
    ensures Numbered(sequence, issued, taken + [r])
  {
  }

  lemma TablesStep(s: State, a: Action)
    requires TablesIssued(s) && Enabled(s, a)
    ensures TablesIssued(Apply(s, a))
  {
    hide Listed, Rewritten, Reads, Small, Allowed;
    if a.IssueRevision? {
      IssueTables(s, s.active.value.saved);
    } else if a.TakeRevision? {
      TakeTables(s);
    }
  }

  /** Taking a revision hands the write exactly what it was issued for. */
  lemma TakeActive(s: State)
    requires TablesIssued(s) && ActiveMatches(s) && Enabled(s, TakeRevision)
    ensures ActiveMatches(Apply(s, TakeRevision))
  {
    hide Rewritten, Reads, Small, Allowed;
  }

  lemma ApproveActive(s: State, available: seq<string>)
    requires ActiveMatches(s) && Enabled(s, Approve(available))
    ensures ActiveMatches(Apply(s, Approve(available)))
  {
    var p := s.active.value;
    hide Options.ValidSelection, Options.Installed, Shader.Admits, Options.ParseOptions, Shader.ParseShader;
    RewrittenReads(p.saved.target.kind, p.saved.original, p.w.request, available);
    hide Rewritten, Reads, Small, Allowed;
  }

  lemma IssueReadable(s: State)
    requires IssuedReadable(s) && ActiveMatches(s) && Enabled(s, IssueRevision)
    ensures IssuedReadable(Apply(s, IssueRevision)) && ActiveMatches(Apply(s, IssueRevision))
  {
    hide Rewritten, Reads, Small, Allowed, Issue;
  }

  lemma RenameActive(s: State, inode: nat)
    requires ActiveMatches(s) && Enabled(s, Rename(inode))
    ensures ActiveMatches(Apply(s, Rename(inode)))
  {
    hide Rewritten, Reads, Small, Allowed;
  }

  lemma PlainActive(s: State, a: Action)
    requires ActiveMatches(s) && Enabled(s, a)
    requires !a.TakeRevision? && !a.Approve? && !a.IssueRevision? && !a.Rename?
    ensures ActiveMatches(Apply(s, a)) && Apply(s, a).issued == s.issued
  {
    hide Rewritten, Reads, Small, Allowed;
  }

  lemma ActiveStep(s: State, a: Action)
    requires TablesIssued(s) && IssuedReadable(s) && ActiveMatches(s) && Enabled(s, a)
    ensures ActiveMatches(Apply(s, a)) && IssuedReadable(Apply(s, a))
  {
    hide Rewritten, Reads, Small, Allowed, ActiveMatches, TablesIssued;
    if a.TakeRevision? {
      TakeActive(s);
    } else if a.Approve? {
      ApproveActive(s, a.available);
    } else if a.IssueRevision? {
      IssueReadable(s);
    } else if a.Rename? {
      RenameActive(s, a.inode);
    } else {
      PlainActive(s, a);
    }
  }

  lemma FaithfulStep(s: State, a: Action, r: Replacement)
    requires TablesIssued(s) && Faithful(s, r) && Enabled(s, a)
    ensures Faithful(Apply(s, a), r)
  {
    hide Rewritten, Reads, Small, Allowed, Listed;
  }

  lemma RenameFaithful(s: State, a: Action)
    requires ActiveMatches(s) && Enabled(s, a) && a.Rename?
    ensures Apply(s, a).replaced == s.replaced + [Apply(s, a).replaced[|s.replaced|]]
    ensures Faithful(Apply(s, a), Apply(s, a).replaced[|s.replaced|])
  {
    hide Rewritten, Reads, Small, Allowed;
  }

  lemma InvStep(s: State, a: Action)
    requires Inv(s) && Enabled(s, a)
    ensures Inv(Apply(s, a))
  {
    hide TablesIssued, ActiveMatches, IssuedReadable, ReplacedOnce, Faithful, Rewritten, Reads, Small, Allowed, Apply, Enabled;
    OnceStep(s, a);
    TablesStep(s, a);
    ActiveStep(s, a);
    ReplacedStep(s, a);
    var q := Apply(s, a);
    forall i | 0 <= i < |q.replaced| ensures Faithful(q, q.replaced[i]) {
      if i < |s.replaced| {
        FaithfulStep(s, a, s.replaced[i]);
      } else {
        RenameFaithful(s, a);
      }
    }
  }

  lemma OnceStep(s: State, a: Action)
    requires TablesIssued(s) && ActiveMatches(s) && ReplacedOnce(s) && Enabled(s, a)
    ensures ReplacedOnce(Apply(s, a))
  {
    hide ReplacedOnce;
    if a.TakeRevision? {
      OnceTake(s);
    } else {
      hide TablesIssued, ActiveMatches, Apply, Enabled;
      OnceOther(s, a);
    }
  }

  /** What passes the lookup was not taken before, so it has replaced nothing. */
  lemma OnceTake(s: State)
    requires TablesIssued(s) && ReplacedOnce(s) && Enabled(s, TakeRevision)
    ensures ReplacedOnce(Apply(s, TakeRevision))
  {
    hide Rewritten, Reads, Small, Allowed, Numbered;
    var w := s.active.value.w;
    assert Lookup(s.tables, w.target.kind, w.revision).Some? ==> w.revision !in s.taken;
    hide TablesIssued, Take, Lookup;
  }

  lemma OnceOther(s: State, a: Action)
    requires ActiveMatches(s) && ReplacedOnce(s) && Enabled(s, a) && !a.TakeRevision?
    ensures ReplacedOnce(Apply(s, a))
  {
    hide Rewritten, Reads, Small, Allowed, Issue, Take, Lookup;
  }

  /** Only a rename adds to the history, one replacement at a time. */
  lemma ReplacedStep(s: State, a: Action)
    requires Enabled(s, a)
    ensures s.replaced <= Apply(s, a).replaced
    ensures Apply(s, a).replaced == s.replaced || (a.Rename? && |Apply(s, a).replaced| == |s.replaced| + 1)
  {
    hide Rewritten, Reads, Small, Allowed, Issue, Take, Lookup;
  }

  lemma {:induction false} RunInv(s: State, run: seq<Action>)
    requires Inv(s) && Exec(s, run).Some?
    ensures Inv(Exec(s, run).value)
    decreases |run|
  {
    hide Inv;
    if run != [] {
      InvStep(s, run[0]);
      RunInv(Apply(s, run[0]), run[1..]);
    }
  }

  // ----- how long a revision lasts -----

  predicate SameTable(a: Kind, b: Kind) { a.Resource? <==> b.Resource? }

  /** The action takes the revision out of its table. */
  predicate TakesOut(s: State, a: Action, kind: Kind, r: Revision) {
    && a.TakeRevision? && s.active.Some? && s.active.value.Asked?
    && SameTable(s.active.value.w.target.kind, kind) && s.active.value.w.revision == r
  }

  /** The action puts a new revision into the table. */
  predicate IssuesIn(s: State, a: Action, kind: Kind) {
    && a.IssueRevision? && s.active.Some? && (s.active.value.ReadDone? || s.active.value.Replaced?)
    && SameTable(s.active.value.saved.target.kind, kind)
  }

  /** A revision stays, with the text it was issued for, until a write takes it or one
      more is issued into a table that holds 64. */
  lemma RevisionStays(s: State, a: Action, kind: Kind, r: Revision)
    requires TablesIssued(s) && Enabled(s, a) && r in Table(s.tables, kind)
    ensures var before, after := Table(s.tables, kind), Table(Apply(s, a).tables, kind);
      && (r in after && after[r] == before[r] <==> !TakesOut(s, a, kind, r) && !(IssuesIn(s, a, kind) && |before| >= 64))
      && |after| <= (if !IssuesIn(s, a, kind) then |before| else if |before| >= 64 then 1 else |before| + 1)
  {
    hide Rewritten, Reads, Small, Allowed, Issue, Take, Table;
    if a.IssueRevision? {
      NewNumber(s, kind);
      IssueKeeps(s.tables, s.active.value.saved, kind, r);
    } else if a.TakeRevision? {
      TakeKeeps(s.tables, s.active.value.w, kind, r);
    } else {
      TablesStay(s, a, kind);
    }
  }

  lemma IssueKeeps(t: Tables, saved: Saved, kind: Kind, r: Revision)
    requires r in Table(t, kind) && t.sequence !in Table(t, kind)
    ensures var before, after := Table(t, kind), Table(Issue(t, saved), kind);
      var same := SameTable(saved.target.kind, kind);
      && (r in after && after[r] == before[r] <==> !(same && |before| >= 64))
      && |after| <= (if !same then |before| else if |before| >= 64 then 1 else |before| + 1)
  {
  }

  lemma TakeKeeps(t: Tables, w: Write, kind: Kind, r: Revision)
    requires r in Table(t, kind)
    ensures var before, after := Table(t, kind), Table(Take(t, w.target.kind, w.revision), kind);
      && (r in after && after[r] == before[r] <==> !(SameTable(w.target.kind, kind) && w.revision == r))
      && |after| <= |before|
  {
    Fewer(Table(t, kind), w.revision);
  }

  lemma TablesStay(s: State, a: Action, kind: Kind)
    requires Enabled(s, a) && !a.IssueRevision? && !a.TakeRevision?
    ensures Table(Apply(s, a).tables, kind) == Table(s.tables, kind)
  {
    hide Rewritten, Reads, Small, Allowed;
  }

  lemma NewNumber(s: State, kind: Kind)
    requires TablesIssued(s)
    ensures s.tables.sequence !in Table(s.tables, kind)
  {
  }

  ghost function Issues(s: State, run: seq<Action>, kind: Kind): nat
    requires Exec(s, run).Some?
    decreases |run|
  {
    if run == [] then 0 else (if IssuesIn(s, run[0], kind) then 1 else 0) + Issues(Apply(s, run[0]), run[1..], kind)
  }

  ghost predicate Untaken(s: State, run: seq<Action>, kind: Kind, r: Revision)
    requires Exec(s, run).Some?
    decreases |run|
  {
    run != [] ==> !TakesOut(s, run[0], kind, r) && Untaken(Apply(s, run[0]), run[1..], kind, r)
  }

  /** So as long as its table has room for what is issued, it can still be used. */
  lemma {:induction false} RevisionLasts(s: State, run: seq<Action>, kind: Kind, r: Revision)
    requires Inv(s) && Exec(s, run).Some? && r in Table(s.tables, kind)
    requires Untaken(s, run, kind, r) && |Table(s.tables, kind)| + Issues(s, run, kind) <= 64
    ensures var before, after := Table(s.tables, kind), Table(Exec(s, run).value.tables, kind);
      r in after && after[r] == before[r]
    decreases |run|
  {
    hide Inv, Table, TakesOut, IssuesIn;
    if run != [] {
      assert TablesIssued(s) by { InvTables(s); }
      RevisionStays(s, run[0], kind, r);
      InvStep(s, run[0]);
      hide Apply, Enabled;
      RevisionLasts(Apply(s, run[0]), run[1..], kind, r);
    }
  }

  lemma InvTables(s: State)
    requires Inv(s)
    ensures TablesIssued(s)
  {
  }

  /** A write gets past the lookup exactly when its revision is in its table and was
      issued for the same file. */
  lemma GetsPastIff(s: State)
    requires Enabled(s, TakeRevision)
    ensures var w, q := s.active.value.w, Apply(s, TakeRevision);
      var m := Table(s.tables, w.target.kind);
      && (q.active.Some? <==> w.revision in m && m[w.revision].target == w.target)
      && (q.active.Some? ==> q.active == Some(Taken(w, m[w.revision])))
      && w.revision !in Table(q.tables, w.target.kind)
  {
  }

  // ----- an undisturbed save -----

  lemma ExecCons(s: State, a: Action, rest: seq<Action>)
    requires Enabled(s, a)
    ensures Exec(s, [a] + rest) == Exec(Apply(s, a), rest)
  {
    hide Enabled, Apply;
    assert ([a] + rest)[1..] == rest;
  }

  lemma ExecLast(s: State, a: Action)
    requires Enabled(s, a)
    ensures Exec(s, [a]) == Some(Apply(s, a))
  {
    hide Enabled, Apply;
    ExecCons(s, a, []);
    assert [a] + [] == [a];
    assert Exec(Apply(s, a), []) == Some(Apply(s, a));
  }

  /** Reading a file and issuing a revision for it. */
  lemma ReadSteps(s: State, t: Target)
    requires s.active.None? && s.readers == 0 && t in s.files && Loads(t.kind, s.files[t].text).Success?
    ensures var saved := Saved(t, s.files[t].text);
      Exec(s, [BeginRead(t)] + ([ReadFile] + [IssueRevision]))
      == Some(s.(tables := Issue(s.tables, saved), issued := s.issued[s.tables.sequence := saved]))
  {
    hide Reads, Small, Issue, Exec;
    var s1 := Apply(s, BeginRead(t));
    var s2 := Apply(s1, ReadFile);
    ExecCons(s, BeginRead(t), [ReadFile] + [IssueRevision]);
    ExecCons(s1, ReadFile, [IssueRevision]);
    ExecLast(s2, IssueRevision);
  }

  function SaveRun(w: Write, available: seq<string>, inode: nat): seq<Action> {
    [BeginWrite(w)] + ([TakeRevision] + ([Compare] + ([Approve(available)] + ([Open] + ([Rename(inode)] + [IssueRevision])))))
  }

  /** The state behind the lookup. */
  function AtTaken(s: State, w: Write, saved: Saved): State {
    s.(active := Some(Phase.Taken(w, saved)), tables := Take(s.tables, w.target.kind, w.revision), taken := s.taken + [w.revision])
  }

  /** The state behind the replacement. */
  function AtReplaced(s: State, w: Write, saved: Saved, inode: nat): State
    requires w.target in s.files
  {
    var after := Rewritten(w.target.kind, saved.original, w.request);
    s.(files := s.files[w.target := File(inode, after)], active := Some(Replaced(Saved(w.target, after))),
       tables := s.tables.(sequence := s.tables.sequence + 1),
       replaced := s.replaced + [Replacement(w, s.files[w.target].text, after, s.readers)])
  }

  lemma TakeStep(s: State, w: Write)
    requires s.active.None? && s.readers == 0 && Fits(w.target.kind, w.request)
    requires w.revision in Table(s.tables, w.target.kind) && Table(s.tables, w.target.kind)[w.revision].target == w.target
    ensures var s1 := s.(active := Some(Asked(w)));
      && Enabled(s, BeginWrite(w)) && Apply(s, BeginWrite(w)) == s1
      && Enabled(s1, TakeRevision)
      && Apply(s1, TakeRevision) == AtTaken(s, w, Table(s.tables, w.target.kind)[w.revision])
  {
    hide Reads, Small, Rewritten, Allowed, Take;
  }

  lemma CheckSteps(s: State, w: Write, saved: Saved, available: seq<string>)
    requires s.active == Some(Phase.Taken(w, saved)) && FileSays(s, saved)
    requires Fits(saved.target.kind, w.request) && Reads(saved.target.kind, saved.original).Success?
    requires Allowed(saved.target.kind, saved.original, w.request, available)
    requires saved.target.kind.Resource? ==> forall p :: p in available ==> Options.Installed(p)
    ensures var s3, s4 := s.(active := Some(Compared(w, saved))), s.(active := Some(Approved(w, saved)));
      && Enabled(s, Compare) && Apply(s, Compare) == s3
      && Enabled(s3, Approve(available)) && Apply(s3, Approve(available)) == s4
  {
    hide Reads, Small, Rewritten, Allowed;
  }

  lemma ReplaceSteps(s: State, w: Write, saved: Saved, inode: nat)
    requires s.active == Some(Approved(w, saved)) && FileSays(s, saved) && saved.target == w.target
    ensures var s5 := s.(active := Some(Opened(w, saved, s.files[w.target].inode)),
                         tables := s.tables.(sequence := s.tables.sequence + 1));
      && Enabled(s, Open) && Apply(s, Open) == s5
      && Enabled(s5, Rename(inode)) && Apply(s5, Rename(inode)) == AtReplaced(s, w, saved, inode)
  {
    hide Reads, Small, Rewritten, Allowed;
  }

  /** A write under a revision in its table, while the file still says what it said and
      nothing else runs, replaces the file by the rewritten text and issues a new
      revision for that. */
  lemma UndisturbedSave(s: State, w: Write, available: seq<string>, inode: nat)
    requires s.active.None? && s.readers == 0 && Fits(w.target.kind, w.request)
    requires w.revision in Table(s.tables, w.target.kind)
    requires var saved := Table(s.tables, w.target.kind)[w.revision];
      && saved.target == w.target && FileSays(s, saved) && Reads(w.target.kind, saved.original).Success?
      && Allowed(w.target.kind, saved.original, w.request, available)
    requires w.target.kind.Resource? ==> forall p :: p in available ==> Options.Installed(p)
    ensures Exec(s, SaveRun(w, available, inode)).Some?
    ensures var q := Exec(s, SaveRun(w, available, inode)).value;
      var saved := Table(s.tables, w.target.kind)[w.revision];
      var after := Rewritten(w.target.kind, saved.original, w.request);
      && q.active.None? && q.files == s.files[w.target := File(inode, after)]
      && q.replaced == s.replaced + [Replacement(w, saved.original, after, 0)]
      && exists r :: r in Table(q.tables, w.target.kind) && Table(q.tables, w.target.kind)[r] == Saved(w.target, after)
  {
    var saved := Table(s.tables, w.target.kind)[w.revision];
    var s1, s2 := s.(active := Some(Asked(w))), AtTaken(s, w, saved);
    var s3, s4 := s2.(active := Some(Compared(w, saved))), s2.(active := Some(Approved(w, saved)));
    var s5 := s4.(active := Some(Opened(w, saved, s.files[w.target].inode)), tables := s4.tables.(sequence := s4.tables.sequence + 1));
    var s6 := AtReplaced(s4, w, saved, inode);
    TakeStep(s, w);
    CheckSteps(s2, w, saved, available);
    ReplaceSteps(s4, w, saved, inode);
    IssueStep(s6, Saved(w.target, Rewritten(w.target.kind, saved.original, w.request)));
    hide Enabled, Apply, Exec, Table, Reads, Small, Rewritten, Allowed;
    var r6 := [Rename(inode)] + [IssueRevision];
    var r4 := [Approve(available)] + ([Open] + r6);
    ExecLast(s6, IssueRevision);
    ExecCons(s5, Rename(inode), [IssueRevision]);
    ExecCons(s4, Open, r6);
    ExecCons(s3, Approve(available), [Open] + r6);
    ExecCons(s2, Compare, r4);
    ExecCons(s1, TakeRevision, [Compare] + r4);
    ExecCons(s, BeginWrite(w), [TakeRevision] + ([Compare] + r4));
  }

  lemma IssueStep(s: State, saved: Saved)
    requires s.active == Some(Replaced(saved))
    ensures Enabled(s, IssueRevision)
    ensures var q := Apply(s, IssueRevision);
      && q.active.None? && q.files == s.files && q.replaced == s.replaced
      && s.tables.sequence in Table(q.tables, saved.target.kind)
      && Table(q.tables, saved.target.kind)[s.tables.sequence] == saved
  {
  }

  // ----- what every run keeps -----

  /** Every replacement of every run found the exact text its revision was issued
      for, in the file it was issued for, with no core request active, and left a
      file that says what was asked. */
  lemma CompareAndSwap(run: seq<Action>, i: nat)
    requires Exec(INITIAL, run).Some?
    ensures var s := Exec(INITIAL, run).value; i < |s.replaced| ==> Faithful(s, s.replaced[i])
  {
    RunInv(INITIAL, run);
    hide Faithful;
  }

  /** What was saved loads again as what was asked, exactly when the rewritten file is
      still small enough to be read. */
  lemma SavedLoadsIff(run: seq<Action>, i: nat)
    requires Exec(INITIAL, run).Some? && i < |Exec(INITIAL, run).value.replaced|
    ensures var r := Exec(INITIAL, run).value.replaced[i];
      Loads(r.w.target.kind, r.after) == Success(r.w.request) <==> Small(r.after)
  {
    CompareAndSwap(run, i);
    hide Reads, Rewritten, Small, Exec;
  }

  /** The bytes of the new setting in the file, and of what it replaces. */
  function NewBytes(kind: Kind, text: string, request: Request): nat
    requires Fits(kind, request) && Reads(kind, text).Success?
  {
    var lines := TextLines.SplitInclusive(text);
    match request
    case Packs(selected) => Options.Utf8Length(Json.PrintStringArray(selected))
    case Shaders(setting) =>
      |Shader.Values(lines, Shader.PACK_KEY)| * Shader.LineBytes(Shader.PACK_KEY, Shader.Text(setting.pack))
      + Shader.LineBytes(Shader.ENABLE_KEY, Shader.Flag(setting.enabled)) + Shader.AppendedBytes(text, setting)
  }

  function OldBytes(kind: Kind, text: string): nat
    requires Reads(kind, text).Success?
  {
    var lines := TextLines.SplitInclusive(text);
    if kind.Resource? then Options.Utf8Length(Options.Entries(lines)[0]) else Shader.SettingBytes(lines)
  }

  /** How much a save makes the file grow decides whether it can be read again. */
  lemma SavedSize(kind: Kind, text: string, request: Request)
    requires Fits(kind, request) && Reads(kind, text).Success?
    requires request.Shaders? ==> Shader.OneLine(request.setting.pack)
    ensures Small(Rewritten(kind, text, request))
       <==> Options.Utf8Length(text) + NewBytes(kind, text, request) <= MAX_OPTIONS + OldBytes(kind, text)
  {
    hide Options.Utf8Length, Shader.Values, Shader.SettingBytes, Shader.LineBytes, Shader.AppendedBytes, Options.Entries,
         TextLines.SplitInclusive;
    match request
    case Packs(selected) => Options.ReplacedSize(text, selected);
    case Shaders(setting) => Shader.ReplacedSize(text, setting);
  }

  /** So what was saved loads again as what was asked, exactly when the file it
      replaced and the request left enough room. */
  lemma SavedLoadsBySize(run: seq<Action>, i: nat)
    requires Exec(INITIAL, run).Some? && i < |Exec(INITIAL, run).value.replaced|
    ensures var r := Exec(INITIAL, run).value.replaced[i];
      var kind := r.w.target.kind;
      && Fits(kind, r.w.request) && Reads(kind, r.before).Success?
      && (Loads(kind, r.after) == Success(r.w.request)
          <==> Options.Utf8Length(r.before) + NewBytes(kind, r.before, r.w.request) <= MAX_OPTIONS + OldBytes(kind, r.before))
  {
    var r := Exec(INITIAL, run).value.replaced[i];
    CompareAndSwap(run, i);
    SavedLoadsIff(run, i);
    hide Exec, Rewritten, NewBytes, OldBytes, Small, Shader.ParseShader, Options.ParseOptions;
    if r.w.request.Shaders? { Shader.ReadOneLine(r.after); }
    SavedSize(r.w.target.kind, r.before, r.w.request);
  }

  /** The condition matters: a full file to which one installed pack is added is
      written, and the next read refuses it. */
  lemma SavedTooLarge()
    ensures var text := Options.FullFile(MAX_OPTIONS - 17);
      var request, available := Packs(["file/p"]), ["file/p"];
      && Loads(Resource, text) == Success(Packs([]))
      && Allowed(Resource, text, request, available)
      && Reads(Resource, Rewritten(Resource, text, request)) == Success(request)
      && Loads(Resource, Rewritten(Resource, text, request)) == Failure(Format)
  {
    var n := MAX_OPTIONS - 17;
    var text := Options.FullFile(n);
    Options.FullFileParses(n);
    Options.FullFileSize(n);
    AddedPack();
    hide Options.FullFile, Options.ParseOptions, Options.Utf8Length, Options.ValidSelection, Json.PrintStringArray,
         TextLines.SplitInclusive, Options.Entries, Options.ReplaceOptions, Options.Installed;
    SavedSize(Resource, text, Packs(["file/p"]));
    RewrittenReads(Resource, text, Packs(["file/p"]), ["file/p"]);
  }

  lemma AddedPack()
    ensures Options.ValidSelection(["file/p"], [], ["file/p"]) && Options.Installed("file/p")
    ensures Options.Utf8Length(Json.PrintStringArray(["file/p"])) > 2
  {
    hide Json.EscapeChars, Options.Utf8Length;
    var json := Json.PrintStringArray(["file/p"]);
    assert |json| > 2;
    Options.AtLeastOneByteEach(json);
    hide Json.PrintStringArray;
    assert Options.ValidName("p") && "file/p" == "file/" + "p" by { Options.AsciiSize("p"); }
    assert ["file/p"][1..] == [];
  }

  /** And in a full shader configuration a pack is chosen: the same happens. */
  lemma SavedShaderTooLarge(runtime: Runtime)
    ensures var text := Shader.FullFile(MAX_OPTIONS - 21);
      var kind, request, available := ShaderOf(runtime), Shaders(Shader.Setting(Some("p"), true)), ["p"];
      && Loads(kind, text) == Success(Shaders(Shader.Setting(None, false)))
      && Allowed(kind, text, request, available)
      && Reads(kind, Rewritten(kind, text, request)) == Success(request)
      && Loads(kind, Rewritten(kind, text, request)) == Failure(Format)
  {
    var n := MAX_OPTIONS - 21;
    var text, request := Shader.FullFile(n), Shaders(Shader.Setting(Some("p"), true));
    Shader.FullFileSays(n);
    Shader.PlainName();
    Shader.GrowthSize();
    ChosenPack();
    hide Shader.FullFile, Shader.ParseShader, Shader.ReplaceShader, Shader.Values, Shader.SettingBytes, Shader.LineBytes,
         Shader.LineBreak, Shader.OneLine, Shader.Admits, Options.Utf8Length, TextLines.SplitInclusive, TextLines.Terminated,
         Options.Installed, Shader.Flag;
    SavedSize(ShaderOf(runtime), text, request);
    RewrittenReads(ShaderOf(runtime), text, request, ["p"]);
  }

  lemma ChosenPack()
    ensures Shader.Admits(Shader.Setting(Some("p"), true), ["p"], None)
  {
    Options.AsciiSize("p");
  }

  /** A revision gets past its lookup once, so it replaces a file at most once. */
  lemma RevisionsWorkOnce(run: seq<Action>)
    requires Exec(INITIAL, run).Some?
    ensures var s := Exec(INITIAL, run).value;
      && (forall i, j :: 0 <= i < j < |s.taken| ==> s.taken[i] != s.taken[j])
      && (forall i, j :: 0 <= i < j < |s.replaced| ==> s.replaced[i].w.revision != s.replaced[j].w.revision)
      && |s.tables.packs| <= MAX_SNAPSHOTS && |s.tables.shaders| <= MAX_SNAPSHOTS
  {
    RunInv(INITIAL, run);
  }

  /** A file changes only by an outside edit, or by a replacement that is recorded. */
  lemma OnlyRecordedChanges(s: State, a: Action, target: Target)
    requires Enabled(s, a) && !a.Edit? && !a.Erase?
    requires (target in Apply(s, a).files) != (target in s.files)
          || (target in s.files && Apply(s, a).files[target] != s.files[target])
    ensures var q := Apply(s, a);
      && a.Rename? && s.active.value.saved.target == target
      && |q.replaced| == |s.replaced| + 1
      && target in q.files && q.replaced[|s.replaced|].after == q.files[target].text
      && target in s.files && q.replaced[|s.replaced|].before == s.files[target].text
  {
    hide Rewritten, Reads, Small, Allowed;
  }
}
