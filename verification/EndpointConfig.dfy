/** The endpoint list: validation, and the pure edits behind save and delete. */
module EndpointConfig {
  import opened Results
  import opened EndpointIds

  const MAX_ENDPOINTS := 64
  const MAX_CONFIG_BYTES := 256 * 1024

  /** The editable texts of a remote endpoint; `name` is its label. */
  datatype Fields = Fields(name: string, destination: string, directory: Option<string>)

  datatype Endpoint =
    | Local
    | Ssh(uuid: EndpointId, fields: Fields)
  {
    function Id(): EndpointId { if Local? then LOCAL else uuid }
  }

  type Config = seq<Endpoint>

  /** Field-level validation, which trims and may reject, and the size of the JSON
      encoding. Both are left abstract. */
  datatype Rules = Rules(check: Fields -> Option<Fields>, size: Config -> nat)

  /** Checking a field that was already checked changes nothing. */
  ghost predicate Stable(rules: Rules) {
    forall f :: rules.check(f).Some? ==> rules.check(rules.check(f).value) == rules.check(f)
  }

  function Ids(c: Config): (ids: seq<EndpointId>)
    ensures |ids| == |c| && forall i :: 0 <= i < |c| ==> ids[i] == c[i].Id()
  {
    seq(|c|, i requires 0 <= i < |c| => c[i].Id())
  }

  function ValidateEndpoint(rules: Rules, e: Endpoint): Option<Endpoint> {
    match e
    case Local => Some(Local)
    case Ssh(uuid, fields) =>
      if !IsUuid(uuid) then None
      else match rules.check(fields)
        case None => None
        case Some(f) => Some(Ssh(uuid, f))
  }

  /** `map(validateEndpoint)`, failing when one endpoint fails. */
  function ValidateAll(rules: Rules, c: Config): (r: Option<Config>)
    ensures r.Some? ==> |r.value| == |c|
    ensures r.Some? ==> forall i :: 0 <= i < |c| ==> ValidateEndpoint(rules, c[i]) == Some(r.value[i])
  {
    if c == [] then Some([])
    else match (ValidateEndpoint(rules, c[0]), ValidateAll(rules, c[1..]))
      case (Some(e), Some(rest)) => Some([e] + rest)
      case _ => None
  }

  predicate WellFormed(rules: Rules, c: Config) {
    && 1 <= |c| <= MAX_ENDPOINTS
    && c[0] == Local
    && (forall i, j :: 0 <= i < j < |c| ==> c[i].Id() != c[j].Id())
    && rules.size(c) <= MAX_CONFIG_BYTES
  }

  function Validate(rules: Rules, c: Config): Option<Config> {
    if !(1 <= |c| <= MAX_ENDPOINTS) then None
    else
      var r := ValidateAll(rules, c);
      if r.Some? && WellFormed(rules, r.value) then r else None
  }

  /** A configuration that passes validation unchanged. */
  ghost predicate Valid(rules: Rules, c: Config) { Validate(rules, c) == Some(c) }

  predicate Has(c: Config, id: EndpointId) { exists i :: 0 <= i < |c| && c[i].Id() == id }

  /** What the bridge looks for before it opens a connection. */
  predicate HasRemote(c: Config, id: EndpointId) { exists i :: 0 <= i < |c| && c[i].Ssh? && c[i].uuid == id }

  // ----- the two transactions, between their read and their write -----

  datatype Draft = Draft(name: string, destination: string, directory: DraftDirectory)
  datatype DraftDirectory = Keep | Set(directory: Option<string>)

  function Patch(f: Fields, d: Draft): Fields {
    Fields(d.name, d.destination, if d.directory.Keep? then f.directory else d.directory.directory)
  }

  const NO_FIELDS := Fields("", "", None)

  /** The first endpoint with this identifier. */
  function IndexOf(c: Config, id: EndpointId): (i: nat)
    requires Has(c, id)
    ensures i < |c| && c[i].Id() == id
  {
    if c[0].Id() == id then 0
    else
      assert Has(c[1..], id) by {
        var k :| 0 <= k < |c| && c[k].Id() == id;
        assert c[1..][k - 1].Id() == id;
      }
      1 + IndexOf(c[1..], id)
  }

  /** The configuration a save writes, or nothing when it throws. `target` is the
      endpoint being edited; without one a new endpoint named `uuid` is appended. */
  function Saved(rules: Rules, read: Config, target: Option<EndpointId>, draft: Draft, uuid: EndpointId): Option<Config> {
    match Validate(rules, read)
    case None => None
    case Some(latest) =>
      match target
      case None =>
        (match ValidateEndpoint(rules, Ssh(uuid, Patch(NO_FIELDS, draft)))
         case None => None
         case Some(e) => Validate(rules, latest + [e]))
      case Some(id) =>
        if !Has(latest, id) || latest[IndexOf(latest, id)].Local? then None
        else
          var i := IndexOf(latest, id);
          match ValidateEndpoint(rules, Ssh(id, Patch(latest[i].fields, draft)))
          case None => None
          case Some(e) => Validate(rules, latest[i := e])
  }

  function Without(c: Config, id: EndpointId): Config {
    if c == [] then [] else (if c[0].Id() == id then [] else [c[0]]) + Without(c[1..], id)
  }

  /** The configuration a delete writes: the repository validates it once more. */
  function Deleted(rules: Rules, read: Config, id: EndpointId): Option<Config> {
    if id == LOCAL then None
    else match Validate(rules, read)
      case None => None
      case Some(latest) => if !HasRemote(latest, id) then None else Validate(rules, Without(latest, id))
  }

  function Reselect(selected: EndpointId, deleted: EndpointId): EndpointId {
    if selected == deleted then LOCAL else selected
  }

  /** `reconcileSelectedEndpointId`: what is shown as selected. */
  function Reconcile(selected: EndpointId, c: Config): EndpointId {
    if Has(c, selected) then selected else LOCAL
  }

  // ----- laws -----

  lemma ValidatedEndpointStable(rules: Rules, e: Endpoint)
    requires Stable(rules) && ValidateEndpoint(rules, e).Some?
    ensures ValidateEndpoint(rules, ValidateEndpoint(rules, e).value) == ValidateEndpoint(rules, e)
    ensures ValidateEndpoint(rules, e).value.Id() == e.Id()
  {
  }

  lemma {:induction false} ValidatedAllStable(rules: Rules, c: Config)
    requires Stable(rules) && ValidateAll(rules, c).Some?
    ensures var v := ValidateAll(rules, c).value; ValidateAll(rules, v) == Some(v) && Ids(v) == Ids(c)
  {
    if c != [] {
      ValidatedEndpointStable(rules, c[0]);
      ValidatedAllStable(rules, c[1..]);
      var v := ValidateAll(rules, c).value;
      assert v[1..] == ValidateAll(rules, c[1..]).value;
      forall i | 0 <= i < |c| ensures v[i].Id() == c[i].Id() {
        ValidatedEndpointStable(rules, c[i]);
      }
    }
  }

  /** Validation is idempotent and keeps the list of identifiers. */
  lemma ValidateStable(rules: Rules, c: Config)
    requires Stable(rules) && Validate(rules, c).Some?
    ensures Valid(rules, Validate(rules, c).value)
    ensures Ids(Validate(rules, c).value) == Ids(c)
  {
    ValidatedAllStable(rules, c);
  }

  lemma HasById(c: Config, id: EndpointId)
    ensures Has(c, id) <==> id in Ids(c)
  {
    if i :| 0 <= i < |c| && c[i].Id() == id { assert Ids(c)[i] == id; }
    if id in Ids(c) {
      var i :| 0 <= i < |Ids(c)| && Ids(c)[i] == id;
      assert c[i].Id() == id;
    }
  }

  /** A save writes a valid configuration whose identifiers are those it read, plus
      the new one when it creates an endpoint. Editing touches one endpoint only. */
  lemma SavedIds(rules: Rules, read: Config, target: Option<EndpointId>, draft: Draft, uuid: EndpointId)
    requires Stable(rules) && Valid(rules, read)
    requires Saved(rules, read, target, draft, uuid).Some?
    ensures var next := Saved(rules, read, target, draft, uuid).value;
      && Valid(rules, next)
      && Ids(next) == Ids(read) + (if target.None? then [uuid] else [])
      && (forall i :: 0 <= i < |read| && target != Some(read[i].Id()) ==> next[i] == read[i])
  {
    var next := Saved(rules, read, target, draft, uuid).value;
    if target.None? {
      var e := ValidateEndpoint(rules, Ssh(uuid, Patch(NO_FIELDS, draft))).value;
      ValidateStable(rules, read + [e]);
      ValidatedPointwise(rules, read, read + [e]);
    } else {
      var i := IndexOf(read, target.value);
      var e := ValidateEndpoint(rules, Ssh(target.value, Patch(read[i].fields, draft))).value;
      ValidateStable(rules, read[i := e]);
      ValidatedPointwise(rules, read, read[i := e]);
    }
  }

  /** One endpoint and what validation makes of it. */
  predicate Validated(rules: Rules, e: Endpoint, out: Endpoint) {
    match e
    case Local => out == Local
    case Ssh(uuid, fields) => IsUuid(uuid) && out.Ssh? && out.uuid == uuid && rules.check(fields) == Some(out.fields)
  }

  /** What validation accepts, and what it makes of it: at most 64 endpoints, the local
      one first, no id twice, each remote one with a well-formed id and checked texts, in
      at most 256 KiB. */
  lemma ValidateIff(rules: Rules, c: Config, out: Config)
    ensures Validate(rules, c) == Some(out) <==>
      && 1 <= |c| <= 64 && |out| == |c| && (forall i :: 0 <= i < |c| ==> Validated(rules, c[i], out[i]))
      && out[0] == Local && (forall i, j :: 0 <= i < |c| && 0 <= j < |c| && c[i].Id() == c[j].Id() ==> i == j)
      && rules.size(out) <= 0x4_0000
  {
    AllIff(rules, c, out);
    if AllValidated(rules, c, out) {
      forall i | 0 <= i < |c| ensures out[i].Id() == c[i].Id() { SameId(rules, c[i], out[i]); }
      hide ValidateAll, Validated;
      DistinctIff(c, out);
    }
    hide ValidateAll;
  }

  ghost predicate AllValidated(rules: Rules, c: Config, out: Config) {
    |out| == |c| && forall i :: 0 <= i < |c| ==> Validated(rules, c[i], out[i])
  }

  lemma {:induction false} AllIff(rules: Rules, c: Config, out: Config)
    ensures ValidateAll(rules, c) == Some(out) <==> AllValidated(rules, c, out)
    decreases |c|
  {
    if c != [] && out != [] {
      var rest, more := c[1..], out[1..];
      AllIff(rules, rest, more);
      ValidatedIff(rules, c[0], out[0]);
      hide ValidateEndpoint, Validated;
      assert out == [out[0]] + more;
      assert forall i :: 0 < i < |c| ==> c[i] == rest[i - 1];
      assert forall i :: 0 < i < |out| ==> out[i] == more[i - 1];
      if AllValidated(rules, c, out) {
        forall i | 0 <= i < |rest| ensures Validated(rules, rest[i], more[i]) { assert Validated(rules, c[i + 1], out[i + 1]); }
      }
    }
  }

  lemma DistinctIff(c: Config, out: Config)
    requires |out| == |c| && forall i :: 0 <= i < |c| ==> out[i].Id() == c[i].Id()
    ensures (forall i, j :: 0 <= i < j < |out| ==> out[i].Id() != out[j].Id())
            <==> forall i, j :: 0 <= i < |c| && 0 <= j < |c| && c[i].Id() == c[j].Id() ==> i == j
  {
    if forall i, j :: 0 <= i < j < |out| ==> out[i].Id() != out[j].Id() {
      forall i, j | 0 <= i < |c| && 0 <= j < |c| && c[i].Id() == c[j].Id() ensures i == j {
        assert out[i].Id() == out[j].Id();
      }
    } else {
      var i, j :| 0 <= i < j < |out| && out[i].Id() == out[j].Id();
      assert c[i].Id() == c[j].Id();
    }
  }

  lemma ValidatedIff(rules: Rules, e: Endpoint, out: Endpoint)
    ensures ValidateEndpoint(rules, e) == Some(out) <==> Validated(rules, e, out)
  {
    hide IsUuid;
  }

  lemma SameId(rules: Rules, e: Endpoint, out: Endpoint)
    requires Validated(rules, e, out)
    ensures out.Id() == e.Id()
  {
  }

  /** The texts a draft asks for: its label and destination under their own names, and
      the directory that was there when the draft keeps it. */
  predicate Asks(draft: Draft, kept: Option<string>, raw: Fields) {
    && raw.name == draft.name
    && raw.destination == draft.destination
    && raw.directory == match draft.directory case Keep => kept case Set(directory) => directory
  }

  /** What a save leaves: a new endpoint stands last under its id, an edited one where
      it stood, with the checked texts that the draft asks for; all others are as before. */
  ghost predicate StoresAt(rules: Rules, before: Config, target: Option<EndpointId>, draft: Draft, uuid: EndpointId, after: Config,
                           i: nat, raw: Fields)
  {
    && rules.check(raw).Some?
    && match target
       case None => Asks(draft, None, raw) && i == |before| && after == before + [Ssh(uuid, rules.check(raw).value)]
       case Some(id) =>
         && i < |before| && before[i].Ssh? && before[i].uuid == id
         && Asks(draft, before[i].fields.directory, raw) && after == before[i := Ssh(id, rules.check(raw).value)]
  }

  ghost predicate Stores(rules: Rules, before: Config, target: Option<EndpointId>, draft: Draft, uuid: EndpointId, after: Config) {
    exists i: nat, raw: Fields :: StoresAt(rules, before, target, draft, uuid, after, i, raw)
  }

  /** When a save has something to write: the texts pass their check, a new id is
      well-formed, not taken and within the limit, an edited one is a remote endpoint,
      and the encoded configuration is not too large. */
  ghost predicate Savable(rules: Rules, before: Config, target: Option<EndpointId>, draft: Draft, uuid: EndpointId) {
    exists after: Config :: && Stores(rules, before, target, draft, uuid, after) && rules.size(after) <= MAX_CONFIG_BYTES
                            && (target.None? ==> IsUuid(uuid) && uuid !in Ids(before) && |before| < MAX_ENDPOINTS)
  }

  lemma {:induction false} AllValid(rules: Rules, c: Config)
    ensures ValidateAll(rules, c).Some? <==> forall i :: 0 <= i < |c| ==> ValidateEndpoint(rules, c[i]).Some?
    decreases |c|
  {
    hide ValidateEndpoint;
    if c != [] {
      var rest := c[1..];
      AllValid(rules, rest);
      assert forall i :: 0 <= i < |rest| ==> rest[i] == c[i + 1];
      assert forall i :: 1 <= i < |c| ==> c[i] == rest[i - 1];
    }
  }

  /** A list of endpoints that pass unchanged passes unchanged. */
  lemma AllFixed(rules: Rules, c: Config)
    requires forall i :: 0 <= i < |c| ==> ValidateEndpoint(rules, c[i]) == Some(c[i])
    ensures ValidateAll(rules, c) == Some(c)
  {
    hide ValidateEndpoint, ValidateAll;
    AllValid(rules, c);
    assert ValidateAll(rules, c).value == c;
  }

  /** Validating a valid list with one more checked endpoint, or with one replaced. */
  lemma WithChecked(rules: Rules, c: Config, e: Endpoint, i: nat)
    requires Valid(rules, c) && ValidateEndpoint(rules, e) == Some(e)
    ensures ValidateAll(rules, c + [e]) == Some(c + [e])
    ensures i < |c| ==> ValidateAll(rules, c[i := e]) == Some(c[i := e])
  {
    hide ValidateEndpoint;
    AllFixed(rules, c + [e]);
    if i < |c| { AllFixed(rules, c[i := e]); }
  }

  lemma CheckedIs(rules: Rules, uuid: EndpointId, raw: Fields)
    requires Stable(rules)
    ensures var r := ValidateEndpoint(rules, Ssh(uuid, raw));
      && (r.Some? <==> IsUuid(uuid) && rules.check(raw).Some?)
      && (r.Some? ==> r.value == Ssh(uuid, rules.check(raw).value) && ValidateEndpoint(rules, r.value) == r)
  {
  }

  lemma PatchAsks(f: Fields, draft: Draft)
    ensures Asks(draft, f.directory, Patch(f, draft))
    ensures forall raw :: Asks(draft, f.directory, raw) ==> raw == Patch(f, draft)
  {
  }

  lemma Remote(rules: Rules, c: Config, id: EndpointId, i: nat)
    requires Valid(rules, c) && i < |c| && c[i].Ssh? && c[i].uuid == id
    ensures Has(c, id) && IndexOf(c, id) == i && IsUuid(id)
  {
    assert c[i].Id() == id;
    assert ValidateEndpoint(rules, c[i]) == Some(c[i]);
  }

  /** A save writes exactly when there is something to write, and what it should. */
  lemma SavedStores(rules: Rules, read: Config, target: Option<EndpointId>, draft: Draft, uuid: EndpointId)
    requires Stable(rules) && Valid(rules, read)
    ensures Saved(rules, read, target, draft, uuid).Some? <==> Savable(rules, read, target, draft, uuid)
    ensures Saved(rules, read, target, draft, uuid).Some?
            ==> Stores(rules, read, target, draft, uuid, Saved(rules, read, target, draft, uuid).value)
  {
    if target.None? {
      CreatedStores(rules, read, draft, uuid);
    } else {
      EditedStores(rules, read, target.value, draft, uuid);
    }
  }

  lemma WellFormedMore(rules: Rules, c: Config, e: Endpoint)
    requires Valid(rules, c) && e.Ssh?
    ensures WellFormed(rules, c + [e]) <==> |c| < MAX_ENDPOINTS && e.Id() !in Ids(c) && rules.size(c + [e]) <= MAX_CONFIG_BYTES
  {
    var more := c + [e];
    HasById(c, e.Id());
    if e.Id() in Ids(c) {
      var i :| 0 <= i < |c| && c[i].Id() == e.Id();
      assert more[i].Id() == more[|c|].Id();
    } else {
      assert forall i :: 0 <= i < |c| ==> c[i].Id() != e.Id();
    }
  }

  lemma WellFormedChanged(rules: Rules, c: Config, e: Endpoint, i: nat)
    requires Valid(rules, c) && e.Ssh? && i < |c| && c[i].Ssh? && c[i].Id() == e.Id()
    ensures WellFormed(rules, c[i := e]) <==> rules.size(c[i := e]) <= MAX_CONFIG_BYTES
  {
    assert forall k :: 0 <= k < |c| ==> c[i := e][k].Id() == c[k].Id();
  }

  lemma CreatedStores(rules: Rules, read: Config, draft: Draft, uuid: EndpointId)
    requires Stable(rules) && Valid(rules, read)
    ensures Saved(rules, read, None, draft, uuid).Some? <==> Savable(rules, read, None, draft, uuid)
    ensures Saved(rules, read, None, draft, uuid).Some?
            ==> Stores(rules, read, None, draft, uuid, Saved(rules, read, None, draft, uuid).value)
  {
    var raw := Patch(NO_FIELDS, draft);
    PatchAsks(NO_FIELDS, draft);
    CheckedIs(rules, uuid, raw);
    if rules.check(raw).Some? && IsUuid(uuid) {
      var e := Ssh(uuid, rules.check(raw).value);
      WithChecked(rules, read, e, 0);
      WellFormedMore(rules, read, e);
      hide Patch, ValidateEndpoint, ValidateAll, WellFormed, Ids, Asks;
      assert StoresAt(rules, read, None, draft, uuid, read + [e], |read|, raw);
    }
  }

  lemma EditedStores(rules: Rules, read: Config, id: EndpointId, draft: Draft, uuid: EndpointId)
    requires Stable(rules) && Valid(rules, read)
    ensures Saved(rules, read, Some(id), draft, uuid).Some? <==> Savable(rules, read, Some(id), draft, uuid)
    ensures Saved(rules, read, Some(id), draft, uuid).Some?
            ==> Stores(rules, read, Some(id), draft, uuid, Saved(rules, read, Some(id), draft, uuid).value)
  {
    if Has(read, id) && read[IndexOf(read, id)].Ssh? {
      var i := IndexOf(read, id);
      var raw := Patch(read[i].fields, draft);
      Remote(rules, read, id, i);
      PatchAsks(read[i].fields, draft);
      CheckedIs(rules, id, raw);
      if rules.check(raw).Some? {
        var e := Ssh(id, rules.check(raw).value);
        WithChecked(rules, read, e, i);
        WellFormedChanged(rules, read, e, i);
        hide Patch, ValidateEndpoint, ValidateAll, WellFormed, Asks;
        assert StoresAt(rules, read, Some(id), draft, uuid, read[i := e], i, raw);
      }
    }
    forall j | 0 <= j < |read| && read[j].Ssh? && read[j].uuid == id ensures Has(read, id) && IndexOf(read, id) == j {
      Remote(rules, read, id, j);
    }
  }

  /** Validation leaves alone every endpoint that was already valid. */
  lemma ValidatedPointwise(rules: Rules, valid: Config, c: Config)
    requires Valid(rules, valid) && Validate(rules, c).Some?
    ensures forall i :: 0 <= i < |c| && i < |valid| && c[i] == valid[i] ==> Validate(rules, c).value[i] == c[i]
  {
    forall i | 0 <= i < |c| && i < |valid| && c[i] == valid[i] ensures Validate(rules, c).value[i] == c[i] {
      assert ValidateEndpoint(rules, valid[i]) == Some(valid[i]);
    }
  }

  lemma {:induction false} WithoutValid(rules: Rules, c: Config, id: EndpointId)
    requires ValidateAll(rules, c) == Some(c)
    ensures ValidateAll(rules, Without(c, id)) == Some(Without(c, id))
  {
    if c != [] {
      assert ValidateAll(rules, c[1..]) == Some(c[1..]);
      WithoutValid(rules, c[1..], id);
      assert c == [c[0]] + c[1..];
      if c[0].Id() != id {
        var r := Without(c, id);
        assert r[1..] == Without(c[1..], id);
      } else {
        assert Without(c, id) == Without(c[1..], id);
      }
    }
  }

  lemma {:induction false} WithoutMembers(c: Config, id: EndpointId)
    ensures forall e :: e in Without(c, id) <==> e in c && e.Id() != id
    decreases |c|
  {
    if c != [] {
      WithoutMembers(c[1..], id);
      assert forall e :: e in c <==> e == c[0] || e in c[1..];
    }
  }

  lemma WithoutNext(c: Config, id: EndpointId)
    requires c != []
    ensures Without(c, id) == (if c[0].Id() == id then [] else [c[0]]) + Without(c[1..], id)
  {
  }

  /** The list without its element at `i`, the others in their order. */
  predicate CutAt(before: Config, i: nat, after: Config) {
    i < |before| && |after| == |before| - 1 && forall k :: 0 <= k < |after| ==> after[k] == before[if k < i then k else k + 1]
  }

  lemma {:induction false} WithoutOne(c: Config, id: EndpointId, i: nat)
    requires i < |c| && c[i].Id() == id && forall j :: 0 <= j < |c| && j != i ==> c[j].Id() != id
    ensures CutAt(c, i, Without(c, id))
    decreases |c|
  {
    var rest := c[1..];
    WithoutNext(c, id);
    hide Without;
    if i == 0 {
      WithoutNone(rest, id);
    } else {
      WithoutOne(rest, id, i - 1);
      var next, shorter := Without(c, id), Without(rest, id);
      forall k | 0 <= k < |next| ensures next[k] == c[if k < i then k else k + 1] {
        if k > 0 { assert next[k] == shorter[k - 1]; }
      }
    }
  }

  lemma {:induction false} WithoutNone(c: Config, id: EndpointId)
    requires forall j :: 0 <= j < |c| ==> c[j].Id() != id
    ensures Without(c, id) == c
    decreases |c|
  {
    if c != [] { WithoutNone(c[1..], id); }
  }

  lemma WellFormedCut(rules: Rules, c: Config, i: nat, next: Config)
    requires WellFormed(rules, c) && 0 < i && CutAt(c, i, next)
    ensures WellFormed(rules, next) <==> rules.size(next) <= MAX_CONFIG_BYTES
  {
    forall j, k | 0 <= j < k < |next| ensures next[j].Id() != next[k].Id() {
      assert next[j] == c[if j < i then j else j + 1] && next[k] == c[if k < i then k else k + 1];
    }
  }

  lemma OnlyAt(rules: Rules, c: Config, id: EndpointId, i: nat)
    requires WellFormed(rules, c) && i < |c| && c[i].Id() == id
    ensures forall j :: 0 <= j < |c| && j != i ==> c[j].Id() != id
  {
  }

  lemma WithoutIs(rules: Rules, c: Config, id: EndpointId)
    requires Valid(rules, c) && HasRemote(c, id) && id != LOCAL
    ensures exists i :: 0 <= i < |c| && c[i].Ssh? && c[i].uuid == id && CutAt(c, i, Without(c, id))
    ensures WellFormed(rules, Without(c, id)) <==> rules.size(Without(c, id)) <= MAX_CONFIG_BYTES
  {
    var i :| 0 <= i < |c| && c[i].Ssh? && c[i].uuid == id;
    assert WellFormed(rules, c) && c[0] == Local;
    hide ValidateAll, WellFormed, HasRemote, Without, CutAt;
    OnlyAt(rules, c, id, i);
    WithoutOne(c, id, i);
    WellFormedCut(rules, c, i, Without(c, id));
  }

  /** A delete cuts out exactly the remote endpoint with the id, and the others stay in
      their order. It has something to write exactly when there is such an endpoint and
      what remains is not too large. */
  lemma DeletedIds(rules: Rules, read: Config, id: EndpointId)
    requires Valid(rules, read)
    ensures Deleted(rules, read, id).Some? <==> HasRemote(read, id) && id != LOCAL && rules.size(Without(read, id)) <= MAX_CONFIG_BYTES
    ensures Deleted(rules, read, id).Some? ==>
      var next := Deleted(rules, read, id).value;
      && next == Without(read, id) && Valid(rules, next)
      && !Has(next, id)
      && (forall e :: e in read && e.Id() != id ==> e in next)
      && exists i :: 0 <= i < |read| && read[i].Ssh? && read[i].uuid == id && CutAt(read, i, next)
  {
    WithoutValid(rules, read, id);
    if id != LOCAL && HasRemote(read, id) {
      WithoutIs(rules, read, id);
      WithoutMembers(read, id);
      hide HasRemote, ValidateAll, CutAt, WellFormed;
      var next := Without(read, id);
      assert forall k :: 0 <= k < |next| ==> next[k] in next;
    }
  }

  /** A selected endpoint that existed still exists after a delete, or the local
      endpoint is selected instead. */
  lemma SelectionKept(rules: Rules, read: Config, id: EndpointId, selected: EndpointId)
    requires Valid(rules, read) && Deleted(rules, read, id).Some?
    requires Has(read, selected)
    ensures Has(Deleted(rules, read, id).value, Reselect(selected, id))
    ensures Reselect(selected, id) == selected || Reselect(selected, id) == LOCAL
  {
    DeletedIds(rules, read, id);
    var next := Deleted(rules, read, id).value;
    if selected == id {
      assert next[0].Id() == LOCAL;
    } else {
      var e := read[IndexOf(read, selected)];
      assert e in next;
      var i :| 0 <= i < |next| && next[i] == e;
      assert next[i].Id() == selected;
    }
  }
}
