/** Gateway tokens of one employee (go/internal/admincore): Onboard, Reissue,
    SetModels and Offboard as sequences of calls, any of which may fail. */
module Provisioning {
  import opened Text

  type Handle = nat
  type Quota = nat

  datatype Key = Key(handle: Handle, models: seq<string>)
  datatype User = User(models: seq<string>, quota: Quota)
  datatype Entry = Entry(name: string, enabled: bool)
  datatype Content =
    | Config(handle: Handle, allowed: seq<string>)
    | Catalog(allowed: seq<string>)
    | Other(text: string)

  type Archive = map<string, Content>

  const CONFIG: string := "codex/config.toml"
  const MODELS: string := "codex/models.json"

  /** The roster entry, the gateway's user and token, and the stored archives
      under each spelling of the name. */
  datatype World = World(roster: Option<Entry>, user: Option<User>, key: Option<Key>, archives: map<string, Archive>)

  /** The calls that can fail, a failed call changing nothing, and the base URL,
      which can be missing. */
  datatype Call =
    | BaseURL
    | FirstRead | RosterRead | RosterWrite | PublishRosterRead
    | OnboardCatalog | OnboardUserLookup | OnboardUserWrite
    | StoredModels | CatalogRead | UserLookup | QuotaDefaults | UserWrite
    | KeyLookup | KeyRevoke | KeyMint | KeyUpdate | KeyWithdraw
    | CatalogBuild | ArchiveRead | ArchiveUnpack | ArchivePack | ArchiveWrite | ArchiveDelete | Unbind

  /** What one operation meets: the calls that fail, the model names the gateway
      lists at each reading, and the token it would mint. */
  datatype Env = Env(fails: set<Call>, first: seq<string>, catalog: seq<string>, minted: Handle, defaults: Quota)

  // ---- allowlists ----

  predicate Ordered(s: seq<string>) {
    forall i :: 1 <= i < |s| ==> !Before(s[i], s[i - 1])
  }

  function Insert(x: string, s: seq<string>): (r: seq<string>)
    ensures multiset(r) == multiset(s) + multiset{x}
    ensures r[0] == x || (s != [] && r[0] == s[0])
    ensures Ordered(s) ==> Ordered(r)
  {
    if s == [] || !Before(s[0], x) then [x] + s
    else
      BeforeIsStrict(s[0], x);
      assert s == [s[0]] + s[1..];
      var t := Insert(x, s[1..]);
      assert Ordered(s) ==> Ordered(s[1..]);
      [s[0]] + t
  }

  /** sort.Strings. */
  function Sort(s: seq<string>): (r: seq<string>)
    ensures multiset(r) == multiset(s) && |r| == |s|
    ensures Ordered(r)
  {
    if s == [] then []
    else
      assert s == [s[0]] + s[1..];
      assert |multiset(s)| == |s|;
      var r := Insert(s[0], Sort(s[1..]));
      assert |multiset(r)| == |r|;
      r
  }

  function KeepAvailable(available: seq<string>, stored: seq<string>): seq<string> {
    if stored == [] then []
    else (if stored[0] in available then [stored[0]] else []) + KeepAvailable(available, stored[1..])
  }

  lemma {:induction false} KeptModels(available: seq<string>, stored: seq<string>)
    ensures forall m :: m in KeepAvailable(available, stored) <==> m in stored && m in available
    ensures KeepAvailable(available, stored) == [] <==> forall m :: m in stored ==> m !in available
  {
    if stored != [] {
      KeptModels(available, stored[1..]);
      assert stored == [stored[0]] + stored[1..];
    }
  }

  /** None when the gateway lists nothing or a requested model is unknown to it. */
  function ResolveAllowlist(available: seq<string>, requested: seq<string>): (allowed: Option<seq<string>>)
    ensures allowed.None? <==> available == [] || exists m :: m in requested && m !in available
    ensures allowed.Some? ==> allowed.value != [] && Ordered(allowed.value)
    ensures allowed.Some? ==> multiset(allowed.value) == multiset(if requested == [] then available else requested)
  {
    if available == [] || exists m :: m in requested && m !in available then None
    else Some(Sort(if requested == [] then available else requested))
  }

  lemma AllowedFrom(available: seq<string>, requested: seq<string>, m: string)
    requires ResolveAllowlist(available, requested).Some? && m in ResolveAllowlist(available, requested).value
    ensures m in available && (requested != [] ==> m in requested)
  {
    var from := if requested == [] then available else requested;
    assert m in multiset(from);
  }

  // ---- steps ----

  function Publish(w: World, name: string, entries: Archive, fails: set<Call>): (World, bool) {
    if PublishRosterRead in fails || w.roster.None? || ArchiveRead in fails then (w, false)
    else if name in w.archives && ArchiveUnpack in fails then (w, false)
    else if ArchivePack in fails || ArchiveWrite in fails then (w, false)
    else
      var existing := if name in w.archives then w.archives[name] else map[];
      (w.(archives := w.archives[name := existing + entries]), true)
  }

  function EnsureUser(w: World, quota: Option<Quota>, models: Option<seq<string>>, lookup: Call, write: Call,
    env: Env): (World, bool) {
    if lookup in env.fails then (w, false)
    else if w.user.Some? && quota.None? then (w, true)
    else if (quota.None? && QuotaDefaults in env.fails) || write in env.fails then (w, false)
    else
      var list := if models.Some? then models.value else if w.user.Some? then w.user.value.models else [];
      (w.(user := Some(User(list, if quota.Some? then quota.value else env.defaults))), true)
  }

  /** The list a token is asked for: None when the request is refused. */
  function Requested(w: World, models: Option<seq<string>>, env: Env): Option<seq<string>> {
    if models.Some? then Some(models.value)
    else if StoredModels in env.fails then None
    else if CatalogRead !in env.fails && w.user.Some? && w.user.value.models != [] then
      var kept := KeepAvailable(env.catalog, w.user.value.models);
      if kept == [] then None else Some(kept)
    else Some([])
  }

  function AllowlistFor(w: World, models: Option<seq<string>>, env: Env): Option<seq<string>> {
    var requested := Requested(w, models, env);
    if RosterRead in env.fails || w.roster.None? || BaseURL in env.fails || requested.None? || CatalogRead in env.fails
      then None
    else ResolveAllowlist(env.catalog, requested.value)
  }

  /** Everything before a token is minted: the list for it when all went well. */
  function Prepare(w: World, models: Option<seq<string>>, env: Env): (World, Option<seq<string>>) {
    var allowed := AllowlistFor(w, models, env);
    if allowed.None? then (w, None)
    else
      var (w1, ensured) := EnsureUser(w, None, None, UserLookup, UserWrite, env);
      if !ensured || KeyLookup in env.fails then (w1, None)
      else if w1.key.Some? && KeyRevoke in env.fails then (w1, None)
      else if KeyMint in env.fails then (w1.(key := None), None)
      else (w1.(key := None), allowed)
  }

  function Issued(allowed: seq<string>, minted: Handle): Archive {
    map[CONFIG := Config(minted, allowed), MODELS := Catalog(allowed)]
  }

  function Withdraw(w: World, fails: set<Call>): World {
    if KeyWithdraw in fails then w else w.(key := None)
  }

  /** The token is minted, then delivered; it is withdrawn when delivery fails. */
  function MintAndDeliver(w: World, name: string, allowed: seq<string>, env: Env): (World, bool) {
    var live := w.(key := Some(Key(env.minted, allowed)));
    if CatalogBuild in env.fails then (Withdraw(live, env.fails), false)
    else
      var (w', delivered) := Publish(live, name, Issued(allowed, env.minted), env.fails);
      if delivered then (w', true) else (Withdraw(w', env.fails), false)
  }

  function Provision(w: World, name: string, models: Option<seq<string>>, env: Env): (World, bool) {
    var (prepared, allowed) := Prepare(w, models, env);
    if allowed.None? then (prepared, false) else MintAndDeliver(prepared, name, allowed.value, env)
  }

  predicate Active(w: World, env: Env) {
    FirstRead !in env.fails && w.roster.Some? && w.roster.value.enabled
  }

  function Reissue(w: World, name: string, env: Env): (World, bool) {
    if !Active(w, env) then (w, false) else Provision(w, name, None, env)
  }

  function Enrolled(w: World, name: string): World {
    w.(roster := Some(Entry(if w.roster.Some? then w.roster.value.name else Lower(TrimSpace(name)), true)))
  }

  /** Onboard up to the token: the roster entry, the gateway user, and the list. */
  function Opening(w: World, name: string, quota: Quota, models: seq<string>, env: Env): (World, Option<seq<string>>) {
    if name == [] || quota == 0 || BaseURL in env.fails || FirstRead in env.fails || RosterWrite in env.fails
      then (w, None)
    else
      var w1 := Enrolled(w, name);
      if OnboardCatalog in env.fails then (w1, None)
      else
        var allowed := ResolveAllowlist(env.first, models);
        if allowed.None? then (w1, None)
        else
          var (w2, ensured) := EnsureUser(w1, Some(quota), allowed, OnboardUserLookup, OnboardUserWrite, env);
          (w2, if ensured then allowed else None)
  }

  function Onboard(w: World, name: string, quota: Quota, models: seq<string>, env: Env): (World, bool) {
    var (begun, allowed) := Opening(w, name, quota, models, env);
    if allowed.None? then (begun, false) else Provision(begun, begun.roster.value.name, allowed, env)
  }

  /** The permissions at the gateway, the user's before the token's. */
  function Permit(w: World, models: seq<string>, env: Env): (World, Option<seq<string>>) {
    if !Active(w, env) || RosterRead in env.fails || KeyLookup in env.fails || w.key.None? || CatalogRead in env.fails
      then (w, None)
    else PermitList(w, ResolveAllowlist(env.catalog, models), env)
  }

  function PermitList(w: World, allowed: Option<seq<string>>, env: Env): (World, Option<seq<string>>)
    requires w.key.Some?
  {
    if allowed.None? || StoredModels in env.fails then (w, None)
    else
      var (w1, written) := if w.user.Some?
        then EnsureUser(w, Some(w.user.value.quota), allowed, UserLookup, UserWrite, env) else (w, true);
      if !written || KeyUpdate in env.fails then (w1, None)
      else (w1.(key := Some(Key(w.key.value.handle, allowed.value))), allowed)
  }

  function SetModels(w: World, name: string, models: seq<string>, env: Env): (World, bool) {
    var (w', allowed) := Permit(w, models, env);
    if allowed.None? || CatalogBuild in env.fails then (w', false)
    else Publish(w', name, map[MODELS := Catalog(allowed.value)], env.fails)
  }

  /** Every step runs even when an earlier one failed. */
  function Offboard(w: World, name: string, env: Env): (World, bool) {
    if FirstRead in env.fails || (w.roster.Some? && RosterWrite in env.fails) then (w, false)
    else
      var spelled := if w.roster.Some? then w.roster.value.name else name;
      var roster := if w.roster.Some? then Some(w.roster.value.(enabled := false)) else None;
      var revoked := KeyLookup !in env.fails && (w.key.None? || KeyRevoke !in env.fails);
      var withdrawn := ArchiveDelete !in env.fails;
      (World(roster, w.user, if revoked then None else w.key, if withdrawn then w.archives - {spelled} else w.archives),
       revoked && withdrawn && Unbind !in env.fails)
  }

  // ---- the operations, call by call ----

  class Console {
    var roster: Option<Entry>
    var user: Option<User>
    var key: Option<Key>
    var archives: map<string, Archive>

    function View(): World
      reads this
    {
      World(roster, user, key, archives)
    }

    method PublishCredentials(name: string, entries: Archive, fails: set<Call>) returns (ok: bool)
      modifies this`archives
      ensures (View(), ok) == Publish(old(View()), name, entries, fails)
    {
      if PublishRosterRead in fails || roster.None? {
        return false;
      }
      var existing := map[];
      if ArchiveRead in fails {
        return false;
      }
      if name in archives {
        if ArchiveUnpack in fails {
          return false;
        }
        existing := archives[name];
      }
      var merged := existing + entries;
      if ArchivePack in fails || ArchiveWrite in fails {
        return false;
      }
      archives := archives[name := merged];
      return true;
    }

    method EnsureGatewayUser(quota: Option<Quota>, models: Option<seq<string>>, lookup: Call, write: Call, env: Env)
      returns (ok: bool)
      modifies this`user
      ensures View() == EnsureUser(old(View()), quota, models, lookup, write, env).0
      ensures ok == EnsureUser(old(View()), quota, models, lookup, write, env).1
    {
      if lookup in env.fails {
        return false;
      }
      if user.Some? && quota.None? {
        return true;
      }
      if quota.None? && QuotaDefaults in env.fails {
        return false;
      }
      var spec := if quota.Some? then quota.value else env.defaults;
      var list := if models.Some? then models.value else [];
      if user.Some? && models.None? {
        list := user.value.models;
      }
      if write in env.fails {
        return false;
      }
      user := Some(User(list, spec));
      return true;
    }

    method ChooseModels(models: Option<seq<string>>, env: Env) returns (allowed: Option<seq<string>>)
      ensures allowed == AllowlistFor(View(), models, env)
    {
      if RosterRead in env.fails || roster.None? || BaseURL in env.fails {
        return None;
      }
      var requested := if models.Some? then models.value else [];
      var stored := false;
      if models.None? {
        if StoredModels in env.fails {
          return None;
        }
        if user.Some? && user.value.models != [] {
          requested, stored := user.value.models, true;
        }
      }
      if CatalogRead in env.fails {
        return None;
      }
      if stored {
        requested := KeepAvailableModels(env.catalog, requested);
        if requested == [] {
          return None;
        }
      }
      allowed := ResolveModels(env.catalog, requested);
    }

    method ProvisionLocked(name: string, models: Option<seq<string>>, env: Env) returns (ok: bool)
      modifies this
      ensures (View(), ok) == Provision(old(View()), name, models, env)
    {
      var allowed := ChooseModels(models, env);
      if allowed.None? {
        return false;
      }
      var ensured := EnsureGatewayUser(None, None, UserLookup, UserWrite, env);
      if !ensured || KeyLookup in env.fails {
        return false;
      }
      if key.Some? {
        if KeyRevoke in env.fails {
          return false;
        }
        key := None;
      }
      if KeyMint in env.fails {
        return false;
      }
      key := Some(Key(env.minted, allowed.value));
      var delivered := false;
      if CatalogBuild !in env.fails {
        delivered := PublishCredentials(name, Issued(allowed.value, env.minted), env.fails);
      }
      if !delivered && KeyWithdraw !in env.fails {
        key := None;
      }
      return delivered;
    }

    method DoOnboard(name: string, quota: Quota, models: seq<string>, env: Env) returns (ok: bool)
      modifies this
      ensures (View(), ok) == Onboard(old(View()), name, quota, models, env)
    {
      if name == "" || quota == 0 || BaseURL in env.fails || FirstRead in env.fails {
        return false;
      }
      var entry := Entry(if roster.Some? then roster.value.name else Lower(TrimSpace(name)), true);
      if RosterWrite in env.fails {
        return false;
      }
      roster := Some(entry);
      if OnboardCatalog in env.fails {
        return false;
      }
      var allowed := ResolveModels(env.first, models);
      if allowed.None? {
        return false;
      }
      var ensured := EnsureGatewayUser(Some(quota), allowed, OnboardUserLookup, OnboardUserWrite, env);
      if !ensured {
        return false;
      }
      ok := ProvisionLocked(entry.name, allowed, env);
    }

    method DoReissue(name: string, env: Env) returns (ok: bool)
      modifies this
      ensures (View(), ok) == Reissue(old(View()), name, env)
    {
      if !Active(View(), env) {
        return false;
      }
      ok := ProvisionLocked(name, None, env);
    }

    method DoPermit(models: seq<string>, env: Env) returns (allowed: Option<seq<string>>)
      modifies this
      ensures (View(), allowed) == Permit(old(View()), models, env)
    {
      if !Active(View(), env) || RosterRead in env.fails || KeyLookup in env.fails || key.None?
        || CatalogRead in env.fails {
        return None;
      }
      allowed := ResolveModels(env.catalog, models);
      if allowed.None? || StoredModels in env.fails {
        return None;
      }
      if user.Some? {
        var written := EnsureGatewayUser(Some(user.value.quota), allowed, UserLookup, UserWrite, env);
        if !written {
          return None;
        }
      }
      if KeyUpdate in env.fails {
        return None;
      }
      key := Some(Key(key.value.handle, allowed.value));
    }

    method DoSetModels(name: string, models: seq<string>, env: Env) returns (ok: bool)
      modifies this
      ensures (View(), ok) == SetModels(old(View()), name, models, env)
    {
      var allowed := DoPermit(models, env);
      if allowed.None? || CatalogBuild in env.fails {
        return false;
      }
      ok := PublishCredentials(name, map[MODELS := Catalog(allowed.value)], env.fails);
    }

    method DoOffboard(name: string, env: Env) returns (ok: bool)
      modifies this
      ensures (View(), ok) == Offboard(old(View()), name, env)
    {
      if FirstRead in env.fails {
        return false;
      }
      var spelled := name;
      if roster.Some? {
        spelled := roster.value.name;
        if RosterWrite in env.fails {
          return false;
        }
        roster := Some(roster.value.(enabled := false));
      }
      ok := true;
      if KeyLookup in env.fails {
        ok := false;
      } else if key.Some? {
        if KeyRevoke in env.fails {
          ok := false;
        } else {
          key := None;
        }
      }
      if ArchiveDelete in env.fails {
        ok := false;
      } else {
        archives := archives - {spelled};
      }
      if Unbind in env.fails {
        ok := false;
      }
    }
  }

  lemma KeepNext(available: seq<string>, stored: seq<string>, i: nat, kept: seq<string>)
    requires i < |stored|
    ensures kept + KeepAvailable(available, stored[i..])
      == (if stored[i] in available then kept + [stored[i]] else kept) + KeepAvailable(available, stored[i + 1..])
  {
    assert stored[i..][1..] == stored[i + 1..];
  }

  method KeepAvailableModels(available: seq<string>, stored: seq<string>) returns (kept: seq<string>)
    ensures kept == KeepAvailable(available, stored)
  {
    kept := [];
    for i := 0 to |stored|
      invariant kept + KeepAvailable(available, stored[i..]) == KeepAvailable(available, stored)
    {
      KeepNext(available, stored, i, kept);
      if stored[i] !in available {
        continue;
      }
      kept := kept + [stored[i]];
    }
    assert stored[|stored|..] == [];
  }

  method ResolveModels(available: seq<string>, requested: seq<string>) returns (r: Option<seq<string>>)
    ensures r == ResolveAllowlist(available, requested)
  {
    if |available| == 0 {
      return None;
    }
    if |requested| == 0 {
      return Some(Sort(available));
    }
    var unknown, allowed := [], [];
    for i := 0 to |requested|
      invariant unknown == [] ==> allowed == requested[..i] && forall j :: 0 <= j < i ==> requested[j] in available
      invariant unknown != [] ==> exists m :: m in requested && m !in available
    {
      if requested[i] !in available {
        unknown := unknown + [requested[i]];
        assert requested[i] in requested;
        continue;
      }
      allowed := allowed + [requested[i]];
    }
    if |unknown| > 0 {
      return None;
    }
    assert allowed == requested;
    return Some(Sort(allowed));
  }

  // ---- runs ----

  datatype Operation =
    | OnboardOp(name: string, quota: Quota, models: seq<string>, env: Env)
    | ReissueOp(name: string, env: Env)
    | SetModelsOp(name: string, models: seq<string>, env: Env)
    | OffboardOp(name: string, env: Env)

  function Apply(w: World, op: Operation): (World, bool) {
    match op
    case OnboardOp(name, quota, models, env) => Onboard(w, name, quota, models, env)
    case ReissueOp(name, env) => Reissue(w, name, env)
    case SetModelsOp(name, models, env) => SetModels(w, name, models, env)
    case OffboardOp(name, env) => Offboard(w, name, env)
  }

  function Play(w: World, ops: seq<Operation>): World
    decreases |ops|
  {
    if ops == [] then w else Play(Apply(w, ops[0]).0, ops[1..])
  }

  /** The archive the agent reads holds the configuration with this token. */
  predicate DeliveredIs(w: World, handle: Handle) {
    && w.roster.Some? && w.roster.value.name in w.archives
    && var a := w.archives[w.roster.value.name];
       CONFIG in a && a[CONFIG].Config? && a[CONFIG].handle == handle
  }

  predicate NoOrphan(w: World) {
    w.key.Some? ==> DeliveredIs(w, w.key.value.handle)
  }

  predicate Fresh(w: World, handle: Handle) {
    forall n, p :: n in w.archives && p in w.archives[n] && w.archives[n][p].Config?
      ==> w.archives[n][p].handle != handle
  }

  /** Delivery of a minted token cannot succeed under this environment. */
  predicate DeliveryFails(w: World, name: string, env: Env) {
    || CatalogBuild in env.fails || PublishRosterRead in env.fails
    || ArchiveRead in env.fails || ArchivePack in env.fails || ArchiveWrite in env.fails
    || (name in w.archives && ArchiveUnpack in env.fails)
  }

  /** What leaves a token live that the delivered archive does not hold: a minted
      token neither delivered nor withdrawn, one delivered under another spelling
      of the name, and a closed account whose token could not be revoked. */
  predicate Orphans(w: World, op: Operation) {
    match op
    case OnboardOp(name, quota, models, env) =>
      var (begun, allowed) := Opening(w, name, quota, models, env);
      allowed.Some? && Prepare(begun, allowed, env).1.Some?
      && DeliveryFails(begun, begun.roster.value.name, env) && KeyWithdraw in env.fails
    case ReissueOp(name, env) =>
      Active(w, env) && Prepare(w, None, env).1.Some?
      && if DeliveryFails(w, name, env) then KeyWithdraw in env.fails else name != w.roster.value.name
    case SetModelsOp(_, _, _) => false
    case OffboardOp(name, env) =>
      w.key.Some? && FirstRead !in env.fails && RosterWrite !in env.fails
      && (KeyLookup in env.fails || KeyRevoke in env.fails) && ArchiveDelete !in env.fails
  }

  lemma PrepareKeeps(w: World, models: Option<seq<string>>, env: Env)
    ensures var (w', allowed) := Prepare(w, models, env);
      && w'.roster == w.roster && w'.archives == w.archives
      && (w'.key == w.key || w'.key.None?)
      && (allowed.Some? ==> w'.key.None? && w'.roster.Some? && allowed.value != [])
  {}

  lemma MintedIsDelivered(w: World, name: string, allowed: seq<string>, env: Env)
    requires w.roster.Some? && Fresh(w, env.minted)
    ensures var (w', ok) := MintAndDeliver(w, name, allowed, env);
      && ok == !DeliveryFails(w, name, env)
      && (NoOrphan(w') <==> if ok then name == w.roster.value.name else KeyWithdraw !in env.fails)
      && (ok ==> w'.key == Some(Key(env.minted, allowed)) && name in w'.archives
                 && CONFIG in w'.archives[name] && w'.archives[name][CONFIG] == Config(env.minted, allowed)
                 && MODELS in w'.archives[name] && w'.archives[name][MODELS] == Catalog(allowed))
  {
    assert CONFIG != MODELS;
  }

  lemma OpeningKeeps(w: World, name: string, quota: Quota, models: seq<string>, env: Env)
    ensures var (w', allowed) := Opening(w, name, quota, models, env);
      && w'.archives == w.archives && w'.key == w.key
      && (w.roster.Some? ==> w'.roster.Some? && w'.roster.value.name == w.roster.value.name)
      && (allowed.Some? ==>
            w'.roster.Some? && allowed.value != [] && w'.user.Some? && w'.user.value.models == allowed.value)
  {}

  /** One operation leaves an orphan token exactly in the cases Orphans names. */
  lemma OrphanExactly(w: World, op: Operation)
    requires NoOrphan(w) && Fresh(w, op.env.minted)
    ensures NoOrphan(Apply(w, op).0) <==> !Orphans(w, op)
  {
    match op
    case OnboardOp(name, quota, models, env) =>
      OpeningKeeps(w, name, quota, models, env);
      var (begun, allowed) := Opening(w, name, quota, models, env);
      if allowed.Some? {
        ProvisionOrphans(begun, begun.roster.value.name, allowed, env);
      }
    case ReissueOp(name, env) =>
      if Active(w, env) {
        ProvisionOrphans(w, name, None, env);
      }
    case SetModelsOp(name, models, env) =>
      SetModelsKeeps(w, name, models, env);
    case OffboardOp(name, env) =>
  }

  lemma ProvisionOrphans(w: World, name: string, models: Option<seq<string>>, env: Env)
    requires NoOrphan(w) && Fresh(w, env.minted)
    ensures NoOrphan(Provision(w, name, models, env).0)
      <==> !(Prepare(w, models, env).1.Some?
             && if DeliveryFails(w, name, env) then KeyWithdraw in env.fails else name != w.roster.value.name)
  {
    PrepareKeeps(w, models, env);
    var (prepared, list) := Prepare(w, models, env);
    if list.Some? {
      MintedIsDelivered(prepared, name, list.value, env);
    }
  }

  lemma SetModelsKeeps(w: World, name: string, models: seq<string>, env: Env)
    requires NoOrphan(w)
    ensures NoOrphan(SetModels(w, name, models, env).0)
  {
    PermitKeeps(w, models, env);
    assert CONFIG != MODELS;
  }

  lemma PermitListKeeps(w: World, list: Option<seq<string>>, env: Env)
    requires w.key.Some? && list != Some([])
    ensures var (w', allowed) := PermitList(w, list, env);
      && w'.roster == w.roster && w'.archives == w.archives
      && w'.key.Some? && w'.key.value.handle == w.key.value.handle
      && (allowed.Some? ==> w'.key.value.models == allowed.value != []
                            && (w'.user.Some? ==> w'.user.value.models == allowed.value))
  {}

  lemma PermitKeeps(w: World, models: seq<string>, env: Env)
    ensures var (w', allowed) := Permit(w, models, env);
      && w'.roster == w.roster && w'.archives == w.archives
      && (w'.key.Some? <==> w.key.Some?) && (w.key.Some? ==> w'.key.value.handle == w.key.value.handle)
      && (allowed.Some? ==> w'.key.Some? && w'.key.value.models == allowed.value != []
                            && (w'.user.Some? ==> w'.user.value.models == allowed.value))
  {
    if w.key.Some? {
      PermitListKeeps(w, ResolveAllowlist(env.catalog, models), env);
    }
  }

  // ---- no orphan token, over whole runs ----

  /** The archives are keyed by the spelling the caller gives. */
  predicate SpelledAsEnrolled(w: World, op: Operation) {
    op.ReissueOp? && w.roster.Some? ==> op.name == w.roster.value.name
  }

  /** No gateway lookup or delete fails, and every token is new. */
  predicate Faithful(w: World, ops: seq<Operation>)
    decreases |ops|
  {
    ops == [] || (
      && ops[0].env.fails * {KeyLookup, KeyRevoke, KeyWithdraw} == {}
      && Fresh(w, ops[0].env.minted) && SpelledAsEnrolled(w, ops[0])
      && Faithful(Apply(w, ops[0]).0, ops[1..]))
  }

  lemma NoneFails(fails: set<Call>)
    requires fails * {KeyLookup, KeyRevoke, KeyWithdraw} == {}
    ensures KeyLookup !in fails && KeyRevoke !in fails && KeyWithdraw !in fails
  {
    assert forall c :: c in {KeyLookup, KeyRevoke, KeyWithdraw} && c in fails ==>
      c in fails * {KeyLookup, KeyRevoke, KeyWithdraw};
  }

  /** Whatever else fails, a live token is the one in the delivered archive. */
  lemma {:induction false} NoOrphanToken(w: World, ops: seq<Operation>)
    requires NoOrphan(w) && Faithful(w, ops)
    ensures NoOrphan(Play(w, ops))
    decreases |ops|
  {
    if ops != [] {
      var op := ops[0];
      NoneFails(op.env.fails);
      OrphanExactly(w, op);
      NoOrphanToken(Apply(w, op).0, ops[1..]);
    }
  }

  /** A reissue under another spelling delivers where the agent does not read. */
  lemma OtherSpelling(minted: Handle, m: string)
    ensures var w := World(Some(Entry("Work1", true)), None, None, map[]);
      var op := ReissueOp("work1", Env({}, [m], [m], minted, 1));
      Apply(w, op).1 && !NoOrphan(Apply(w, op).0)
  {
    var w := World(Some(Entry("Work1", true)), None, None, map[]);
    var env := Env({}, [m], [m], minted, 1);
    assert "Work1"[0] != "work1"[0];
    var allowed := ResolveAllowlist([m], []);
    assert [m] != [];
    assert allowed.Some?;
    assert Prepare(w, None, env).1.Some?;
    OrphanExactly(w, ReissueOp("work1", env));
    assert "work1" !in w.archives;
  }

  // ---- a reissue never widens ----

  predicate Within(key: Key, list: seq<string>) {
    key.models != [] && forall m :: m in key.models ==> m in list
  }

  lemma StoredListBinds(w: World, env: Env)
    requires w.user.Some? && w.user.value.models != [] && Prepare(w, None, env).1.Some?
    ensures Within(Key(env.minted, Prepare(w, None, env).1.value), w.user.value.models)
  {
    var kept := KeepAvailable(env.catalog, w.user.value.models);
    assert Requested(w, None, env) == Some(kept);
    KeptModels(env.catalog, w.user.value.models);
    forall m | m in Prepare(w, None, env).1.value
      ensures m in w.user.value.models
    {
      AllowedFrom(env.catalog, kept, m);
    }
  }

  /** However the catalog changes between them, reissues leave the stored list
      alone and mint tokens for a non-empty part of it. */
  lemma {:induction false} ReissuesNeverWiden(w: World, ops: seq<Operation>)
    requires w.user.Some? && w.user.value.models != []
    requires forall op :: op in ops ==> op.ReissueOp?
    ensures var after := Play(w, ops);
      && after.user == w.user
      && (after.key.None? || after.key == w.key || Within(after.key.value, w.user.value.models))
    decreases |ops|
  {
    if ops != [] {
      var op := ops[0];
      assert op in ops;
      ReissueStep(w, op.name, op.env);
      ReissuesNeverWiden(Reissue(w, op.name, op.env).0, ops[1..]);
    }
  }

  lemma ReissueStep(w: World, name: string, env: Env)
    requires w.user.Some? && w.user.value.models != []
    ensures var w' := Reissue(w, name, env).0;
      w'.user == w.user && (w'.key.None? || w'.key == w.key || Within(w'.key.value, w.user.value.models))
  {
    PrepareKeeps(w, None, env);
    if Prepare(w, None, env).1.Some? {
      StoredListBinds(w, env);
    }
  }

  /** With nothing left of the stored list, nothing is revoked. */
  lemma EmptyListIsRefused(w: World, name: string, env: Env)
    requires w.user.Some? && w.user.value.models != []
    requires forall m :: m in w.user.value.models ==> m !in env.catalog
    ensures Reissue(w, name, env) == (w, false)
  {
    KeptModels(env.catalog, w.user.value.models);
  }

  // ---- what success means ----

  /** The agent's catalog shows what the token reaches, and both are within what
      the gateway's user may use. */
  predicate InStep(w: World, name: string) {
    && w.key.Some? && w.key.value.models != []
    && name in w.archives && MODELS in w.archives[name] && w.archives[name][MODELS] == Catalog(w.key.value.models)
    && (w.user.Some? && w.user.value.models != [] ==> Within(w.key.value, w.user.value.models))
  }

  lemma ProvisionSucceeds(w: World, name: string, models: Option<seq<string>>, env: Env)
    requires Fresh(w, env.minted) && Provision(w, name, models, env).1
    requires models.Some? ==> models.value != [] && w.user.Some? && forall m :: m in models.value ==>
      m in w.user.value.models
    ensures var w' := Provision(w, name, models, env).0;
      InStep(w', name) && w'.key.value.handle == env.minted && CONFIG in w'.archives[name]
      && w'.archives[name][CONFIG] == Config(env.minted, w'.key.value.models)
  {
    PrepareKeeps(w, models, env);
    var (prepared, allowed) := Prepare(w, models, env);
    MintedIsDelivered(prepared, name, allowed.value, env);
    if models.Some? {
      forall m | m in allowed.value
        ensures m in w.user.value.models
      {
        AllowedFrom(env.catalog, models.value, m);
      }
    } else if w.user.Some? && w.user.value.models != [] {
      StoredListBinds(w, env);
    }
  }

  /** A token reissued with success is the delivered one, and what the agent reads,
      exactly when the name is spelled as in the roster. */
  lemma ReissueIsComplete(w: World, name: string, env: Env)
    requires Fresh(w, env.minted) && Reissue(w, name, env).1
    ensures var w' := Reissue(w, name, env).0;
      && w'.roster == w.roster && w.roster.Some? && InStep(w', name)
      && (NoOrphan(w') && InStep(w', w.roster.value.name) <==> name == w.roster.value.name)
  {
    ProvisionSucceeds(w, name, None, env);
    PrepareKeeps(w, None, env);
    var (prepared, allowed) := Prepare(w, None, env);
    MintedIsDelivered(prepared, name, allowed.value, env);
  }

  lemma SetModelsIsComplete(w: World, name: string, models: seq<string>, env: Env)
    requires SetModels(w, name, models, env).1
    ensures var w' := SetModels(w, name, models, env).0;
      w'.roster == w.roster && w.roster.Some? && InStep(w', name)
  {
    PermitKeeps(w, models, env);
  }

  lemma OnboardIsComplete(w: World, name: string, quota: Quota, models: seq<string>, env: Env)
    requires Fresh(w, env.minted) && Onboard(w, name, quota, models, env).1
    ensures var w' := Onboard(w, name, quota, models, env).0;
      w'.roster.Some? && NoOrphan(w') && InStep(w', w'.roster.value.name)
  {
    OpeningKeeps(w, name, quota, models, env);
    var (begun, allowed) := Opening(w, name, quota, models, env);
    ProvisionSucceeds(begun, begun.roster.value.name, allowed, env);
    PrepareKeeps(begun, allowed, env);
  }

  /** What the agent reads under the roster's name is in step with the gateway. */
  predicate AgentInStep(w: World) {
    w.roster.Some? && InStep(w, w.roster.value.name)
  }

  lemma SuccessIsComplete(w: World, op: Operation)
    requires Fresh(w, op.env.minted) && Apply(w, op).1
    ensures var w' := Apply(w, op).0;
      match op
      case OffboardOp(_, _) =>
        w'.key.None? && (w'.roster.Some? ==> !w'.roster.value.enabled && w'.roster.value.name !in w'.archives)
      case OnboardOp(_, _, _, _) => NoOrphan(w') && AgentInStep(w')
      case ReissueOp(name, _) => w.roster.Some? && (NoOrphan(w') && AgentInStep(w') <==> name == w.roster.value.name)
      case SetModelsOp(name, _, _) => w.roster.Some? && (name == w.roster.value.name ==> AgentInStep(w'))
  {
    match op
    case OnboardOp(name, quota, models, env) => OnboardIsComplete(w, name, quota, models, env);
    case ReissueOp(name, env) => ReissueIsComplete(w, name, env);
    case SetModelsOp(name, models, env) => SetModelsIsComplete(w, name, models, env);
    case OffboardOp(name, env) =>
  }

  // ---- the administrator's quota ----

  /** An employee opened or opened again has the quota that was asked for, is enabled,
      and keeps the spelling of the roster, which is in lower case when it is new. */
  lemma OnboardSets(w: World, name: string, quota: Quota, models: seq<string>, env: Env)
    requires Onboard(w, name, quota, models, env).1
    ensures var w' := Onboard(w, name, quota, models, env).0;
      && w'.user.Some? && w'.user.value.quota == quota
      && w'.roster.Some? && w'.roster.value.enabled
      && w'.roster.value.name == if w.roster.Some? then w.roster.value.name else Lower(TrimSpace(name))
  {
    OpeningSets(w, name, quota, models, env);
    var (begun, allowed) := Opening(w, name, quota, models, env);
    ProvisionKeepsUser(begun, begun.roster.value.name, allowed, env);
  }

  lemma OpeningSets(w: World, name: string, quota: Quota, models: seq<string>, env: Env)
    requires Opening(w, name, quota, models, env).1.Some?
    ensures var w' := Opening(w, name, quota, models, env).0;
      && w'.user.Some? && w'.user.value.quota == quota
      && w'.roster.Some? && w'.roster.value.enabled
      && w'.roster.value.name == if w.roster.Some? then w.roster.value.name else Lower(TrimSpace(name))
  {}

  /** Without a list the models an existing user may use stay, whatever the quota, and
      without a quota nothing of it changes. */
  lemma UserStays(w: World, quota: Option<Quota>, models: Option<seq<string>>, lookup: Call, write: Call, env: Env)
    requires w.user.Some?
    ensures var w' := EnsureUser(w, quota, models, lookup, write, env).0;
      && w'.user.Some? && (models.None? ==> w'.user.value.models == w.user.value.models)
      && (quota.None? ==> w' == w)
  {}

  /** Issuing a token leaves an existing user alone, and makes a missing one with the
      stored defaults. */
  lemma ProvisionKeepsUser(w: World, name: string, models: Option<seq<string>>, env: Env)
    ensures var (w', ok) := Provision(w, name, models, env);
      && w'.roster == w.roster
      && (w.user.Some? ==> w'.user == w.user)
      && (w.user.None? ==> w'.user.None? || w'.user == Some(User([], env.defaults)))
      && (ok ==> w'.user.Some?)
  {
    PrepareKeepsUser(w, models, env);
  }

  lemma PrepareKeepsUser(w: World, models: Option<seq<string>>, env: Env)
    ensures var (w', allowed) := Prepare(w, models, env);
      && w'.roster == w.roster
      && (w.user.Some? ==> w'.user == w.user)
      && (w.user.None? ==> w'.user.None? || w'.user == Some(User([], env.defaults)))
      && (allowed.Some? ==> w'.user.Some?)
  {}

  lemma PermitKeepsQuota(w: World, models: seq<string>, env: Env)
    ensures var w' := Permit(w, models, env).0;
      (w.user.Some? <==> w'.user.Some?) && (w.user.Some? ==> w'.user.value.quota == w.user.value.quota)
  {}

  /** Whatever fails, no other operation changes the quota of an existing user. */
  lemma QuotaKept(w: World, op: Operation)
    requires w.user.Some? && !op.OnboardOp?
    ensures var w' := Apply(w, op).0;
      w'.user.Some? && w'.user.value.quota == w.user.value.quota
  {
    match op
    case ReissueOp(name, env) => ProvisionKeepsUser(w, name, None, env);
    case SetModelsOp(name, models, env) => PermitKeepsQuota(w, models, env);
    case OffboardOp(_, _) =>
  }

  lemma {:induction false} QuotaKeptOver(w: World, ops: seq<Operation>)
    requires w.user.Some? && forall op :: op in ops ==> !op.OnboardOp?
    ensures Play(w, ops).user.Some? && Play(w, ops).user.value.quota == w.user.value.quota
    decreases |ops|
  {
    if ops != [] {
      assert ops[0] in ops;
      QuotaKept(w, ops[0]);
      QuotaKeptOver(Apply(w, ops[0]).0, ops[1..]);
    }
  }

  // ---- what else is in the archives ----

  /** Publishing changes one archive, and in it the published entries alone. */
  lemma PublishKeeps(w: World, name: string, entries: Archive, fails: set<Call>)
    ensures var (w', ok) := Publish(w, name, entries, fails);
      && w'.roster == w.roster && w'.user == w.user && w'.key == w.key
      && (forall n :: n != name ==> (n in w'.archives <==> n in w.archives))
      && (forall n :: n != name && n in w.archives ==> w'.archives[n] == w.archives[n])
      && (!ok ==> w' == w)
      && (ok ==> name in w'.archives && forall p :: p in entries ==>
            p in w'.archives[name] && w'.archives[name][p] == entries[p])
      && (ok && name in w.archives ==> forall p :: p in w.archives[name] && p !in entries ==>
            p in w'.archives[name] && w'.archives[name][p] == w.archives[name][p])
  {}

  // ---- exactly when an operation succeeds ----

  /** What publishing needs, and nothing else: the roster entry, and the archive's calls. */
  predicate PublishingWorks(w: World, name: string, fails: set<Call>) {
    && w.roster.Some? && PublishRosterRead !in fails && ArchiveRead !in fails
    && ArchivePack !in fails && ArchiveWrite !in fails && (name in w.archives ==> ArchiveUnpack !in fails)
  }

  /** What issuing a token needs besides a list of models. */
  predicate IssuingWorks(w: World, name: string, env: Env) {
    && PublishingWorks(w, name, env.fails)
    && RosterRead !in env.fails && BaseURL !in env.fails && CatalogRead !in env.fails && UserLookup !in env.fails
    && KeyLookup !in env.fails && KeyMint !in env.fails && CatalogBuild !in env.fails
    && (w.user.None? ==> QuotaDefaults !in env.fails && UserWrite !in env.fails)
    && (w.key.Some? ==> KeyRevoke !in env.fails)
  }

  lemma PublishOk(w: World, name: string, entries: Archive, fails: set<Call>)
    ensures Publish(w, name, entries, fails).1 <==> PublishingWorks(w, name, fails)
  {}

  lemma MintOk(w: World, name: string, allowed: seq<string>, env: Env)
    ensures MintAndDeliver(w, name, allowed, env).1
      <==> CatalogBuild !in env.fails && PublishingWorks(w, name, env.fails)
  {
    PublishOk(w.(key := Some(Key(env.minted, allowed))), name, Issued(allowed, env.minted), env.fails);
  }

  lemma PrepareOk(w: World, models: Option<seq<string>>, env: Env)
    ensures var (w', allowed) := Prepare(w, models, env);
      && w'.roster == w.roster && w'.archives == w.archives
      && (allowed.Some? <==>
            AllowlistFor(w, models, env).Some? && UserLookup !in env.fails
            && (w.user.None? ==> QuotaDefaults !in env.fails && UserWrite !in env.fails)
            && KeyLookup !in env.fails && (w.key.Some? ==> KeyRevoke !in env.fails) && KeyMint !in env.fails)
  {
    LookupOk(w, env);
  }

  lemma LookupOk(w: World, env: Env)
    ensures var (w', ok) := EnsureUser(w, None, None, UserLookup, UserWrite, env);
      && w'.roster == w.roster && w'.archives == w.archives && w'.key == w.key
      && (ok <==> UserLookup !in env.fails
                  && (w.user.None? ==> QuotaDefaults !in env.fails && UserWrite !in env.fails))
  {}

  lemma ProvisionOk(w: World, name: string, models: Option<seq<string>>, env: Env)
    ensures Provision(w, name, models, env).1 <==> IssuingWorks(w, name, env) && AllowlistFor(w, models, env).Some?
  {
    PrepareOk(w, models, env);
    var (prepared, allowed) := Prepare(w, models, env);
    if allowed.Some? {
      MintOk(prepared, name, allowed.value, env);
    }
  }

  /** The list for a reissue: the stored one must be readable, and when it is not empty
      something of it must still be offered. */
  predicate ReissueHasList(w: World, env: Env) {
    && StoredModels !in env.fails && env.catalog != []
    && (w.user.Some? && w.user.value.models != [] ==> exists m :: m in w.user.value.models && m in env.catalog)
  }

  lemma ReissueList(w: World, env: Env)
    requires w.roster.Some? && RosterRead !in env.fails && BaseURL !in env.fails && CatalogRead !in env.fails
    ensures AllowlistFor(w, None, env).Some? <==> ReissueHasList(w, env)
  {
    if w.user.Some? && w.user.value.models != [] {
      KeptModels(env.catalog, w.user.value.models);
      assert forall m :: m in KeepAvailable(env.catalog, w.user.value.models) ==> m in env.catalog;
    }
  }

  lemma ReissueOk(w: World, name: string, env: Env)
    ensures Reissue(w, name, env).1
      <==> FirstRead !in env.fails && w.roster.Some? && w.roster.value.enabled
           && IssuingWorks(w, name, env) && ReissueHasList(w, env)
  {
    ProvisionOk(w, name, None, env);
    if IssuingWorks(w, name, env) {
      ReissueList(w, env);
    }
  }

  /** Every name asked for is offered; asking for none asks for all. */
  predicate Offered(models: seq<string>, offered: seq<string>) {
    offered != [] && forall m :: m in models ==> m in offered
  }

  lemma ResolvesExactly(available: seq<string>, requested: seq<string>)
    ensures ResolveAllowlist(available, requested).Some? <==> Offered(requested, available)
    ensures ResolveAllowlist(available, requested).Some? ==>
      var from := if requested == [] then available else requested;
      forall m :: m in ResolveAllowlist(available, requested).value <==> m in from
  {
    var r := ResolveAllowlist(available, requested);
    if r.Some? {
      var from := if requested == [] then available else requested;
      forall m
        ensures m in r.value <==> m in from
      {
        assert m in r.value <==> m in multiset(r.value);
        assert m in from <==> m in multiset(from);
      }
    }
  }

  /** What the first half of an enrolment needs. */
  predicate EnrolmentWorks(name: string, quota: Quota, models: seq<string>, env: Env) {
    && name != [] && quota != 0 && BaseURL !in env.fails && FirstRead !in env.fails && RosterWrite !in env.fails
    && OnboardCatalog !in env.fails && OnboardUserLookup !in env.fails && OnboardUserWrite !in env.fails
    && Offered(models, env.first)
  }

  lemma OpeningOk(w: World, name: string, quota: Quota, models: seq<string>, env: Env)
    ensures var (w', allowed) := Opening(w, name, quota, models, env);
      && (allowed.Some? <==> EnrolmentWorks(name, quota, models, env))
      && (allowed.Some? ==>
            allowed == ResolveAllowlist(env.first, models) && w'.user.Some? && w'.roster.Some?
            && w'.key == w.key && w'.archives == w.archives)
  {
    ResolvesExactly(env.first, models);
  }

  lemma OnboardOk(w: World, name: string, quota: Quota, models: seq<string>, env: Env)
    ensures var begun := Opening(w, name, quota, models, env).0;
      Onboard(w, name, quota, models, env).1
      <==> EnrolmentWorks(name, quota, models, env) && begun.roster.Some?
           && IssuingWorks(begun, begun.roster.value.name, env)
           && Offered(if models == [] then env.first else models, env.catalog)
  {
    OpeningOk(w, name, quota, models, env);
    var (begun, allowed) := Opening(w, name, quota, models, env);
    if allowed.Some? {
      ProvisionOk(begun, begun.roster.value.name, allowed, env);
      ResolvesExactly(env.first, models);
      ResolvesExactly(env.catalog, allowed.value);
    }
  }

  lemma PermitOk(w: World, models: seq<string>, env: Env)
    ensures var (w', allowed) := Permit(w, models, env);
      && w'.roster == w.roster && w'.archives == w.archives
      && (allowed.Some? <==>
            FirstRead !in env.fails && w.roster.Some? && w.roster.value.enabled
            && RosterRead !in env.fails && KeyLookup !in env.fails && w.key.Some? && CatalogRead !in env.fails
            && StoredModels !in env.fails && Offered(models, env.catalog) && KeyUpdate !in env.fails
            && (w.user.Some? ==> UserLookup !in env.fails && UserWrite !in env.fails))
  {
    ResolvesExactly(env.catalog, models);
  }

  lemma SetModelsOk(w: World, name: string, models: seq<string>, env: Env)
    ensures SetModels(w, name, models, env).1
      <==> Permit(w, models, env).1.Some? && CatalogBuild !in env.fails && PublishingWorks(w, name, env.fails)
  {
    PermitOk(w, models, env);
    var (w', allowed) := Permit(w, models, env);
    if allowed.Some? {
      PublishOk(w', name, map[MODELS := Catalog(allowed.value)], env.fails);
    }
  }

  /** With nothing failing every request that makes sense succeeds. */
  lemma NothingFails(w: World, op: Operation)
    requires op.env.fails == {} && op.env.catalog != [] && op.env.first == op.env.catalog
    requires match op
      case OnboardOp(name, quota, models, env) => name != [] && quota != 0 && Offered(models, env.catalog)
      case ReissueOp(_, env) => w.roster.Some? && w.roster.value.enabled && ReissueHasList(w, env)
      case SetModelsOp(_, models, env) =>
        w.roster.Some? && w.roster.value.enabled && w.key.Some? && Offered(models, env.catalog)
      case OffboardOp(_, _) => true
    ensures Apply(w, op).1
  {
    match op
    case OnboardOp(name, quota, models, env) =>
      OpeningOk(w, name, quota, models, env);
      OnboardOk(w, name, quota, models, env);
    case ReissueOp(name, env) => ReissueOk(w, name, env);
    case SetModelsOp(name, models, env) =>
      PermitOk(w, models, env);
      SetModelsOk(w, name, models, env);
    case OffboardOp(_, _) =>
  }

  // ---- what a failure leaves ----

  /** Closing an account does each of its steps whatever becomes of the others, once the
      roster has been dealt with; and succeeds exactly when each did. */
  lemma OffboardExactly(w: World, name: string, env: Env)
    ensures var (w', ok) := Offboard(w, name, env);
      var begun := FirstRead !in env.fails && (w.roster.Some? ==> RosterWrite !in env.fails);
      var spelled := if w.roster.Some? then w.roster.value.name else name;
      && (!begun ==> w' == w && !ok)
      && (begun && w.roster.Some? ==> w'.roster == Some(Entry(w.roster.value.name, false)))
      && (begun && w.roster.None? ==> w'.roster.None?)
      && (w'.key.None? <==> w.key.None? || (begun && KeyLookup !in env.fails && KeyRevoke !in env.fails))
      && (begun ==> (spelled !in w'.archives <==> spelled !in w.archives || ArchiveDelete !in env.fails))
      && w'.user == w.user
      && (ok <==>
            begun && KeyLookup !in env.fails && (w.key.Some? ==> KeyRevoke !in env.fails)
            && ArchiveDelete !in env.fails && Unbind !in env.fails)
  {}

  /** The reissue stops before the old token is revoked. */
  predicate StopsEarly(w: World, env: Env) {
    KeyLookup in env.fails || KeyRevoke in env.fails || UserLookup in env.fails || !ReissueHasList(w, env)
  }

  /** A request that is refused, or stopped before the old token is revoked, leaves that
      token, and no failed one touches an archive. */
  lemma FailedReissueKeeps(w: World, name: string, env: Env)
    requires !Reissue(w, name, env).1
    ensures var w' := Reissue(w, name, env).0;
      && w'.archives == w.archives && w'.roster == w.roster
      && (FirstRead in env.fails || w.roster.None? || !w.roster.value.enabled ==> w' == w)
      && (w.key.Some? && StopsEarly(w, env) ==> w'.key == w.key)
      && (KeyMint in env.fails ==> w'.key.None? || w'.key == w.key)
  {
    if Active(w, env) {
      FailedProvisionKeeps(w, name, env);
    }
  }

  lemma StoppedPrepare(w: World, env: Env)
    ensures var (w', allowed) := Prepare(w, None, env);
      && w'.archives == w.archives && w'.roster == w.roster
      && (w.key.Some? && StopsEarly(w, env) ==> allowed.None? && w'.key == w.key)
      && (KeyMint in env.fails ==> allowed.None? && (w'.key.None? || w'.key == w.key))
  {
    PrepareOk(w, None, env);
    if w.roster.Some? && RosterRead !in env.fails && BaseURL !in env.fails && CatalogRead !in env.fails {
      ReissueList(w, env);
    }
  }

  lemma FailedProvisionKeeps(w: World, name: string, env: Env)
    requires !Provision(w, name, None, env).1
    ensures var w' := Provision(w, name, None, env).0;
      && w'.archives == w.archives && w'.roster == w.roster
      && (w.key.Some? && StopsEarly(w, env) ==> w'.key == w.key)
      && (KeyMint in env.fails ==> w'.key.None? || w'.key == w.key)
  {
    StoppedPrepare(w, env);
    var (prepared, allowed) := Prepare(w, None, env);
    if allowed.Some? {
      PublishKeeps(prepared.(key := Some(Key(env.minted, allowed.value))), name, Issued(allowed.value, env.minted),
        env.fails);
    }
  }

  /** A failed change of models leaves the delivered catalog as it was. */
  lemma FailedSetModelsKeeps(w: World, name: string, models: seq<string>, env: Env)
    requires !SetModels(w, name, models, env).1
    ensures SetModels(w, name, models, env).0.archives == w.archives
  {
    PermitOk(w, models, env);
    var (w', allowed) := Permit(w, models, env);
    if allowed.Some? {
      PublishKeeps(w', name, map[MODELS := Catalog(allowed.value)], env.fails);
    }
  }

  /** A failed enrolment leaves the archives as they were, and the token with them when it
      failed before the gateway user was in place; a refused request changes nothing. */
  lemma FailedOnboardKeeps(w: World, name: string, quota: Quota, models: seq<string>, env: Env)
    requires !EnrolmentWorks(name, quota, models, env)
    ensures var (w', ok) := Onboard(w, name, quota, models, env);
      && !ok && w'.archives == w.archives && w'.key == w.key && w'.user == w.user
      && (name == [] || quota == 0 || BaseURL in env.fails || FirstRead in env.fails || RosterWrite in env.fails ==>
            w' == w)
      && (w' == w || w' == Enrolled(w, name))
  {
    OpeningOk(w, name, quota, models, env);
    ResolvesExactly(env.first, models);
  }
}
