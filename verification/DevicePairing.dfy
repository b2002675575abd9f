/** Device pairing, from server/src/devices.rs: claim tokens, redemption, device
    tokens, release and administrative registration. Each method is one atomic
    step; secrets are fresh numbers, and hashing them is injective. */
module DevicePairing {
  import opened Text

  type Secret = nat

  datatype ClaimToken = ClaimToken(household: string, expiresAt: int, consumed: bool)

  datatype Device = Device(household: string, name: string, hardware: string, firmware: string,
                           token: Secret, released: bool)

  datatype Tables = Tables(claimTokens: map<Secret, ClaimToken>, devices: map<string, Device>)

  datatype DeviceError = InvalidInput | InvalidClaimToken | HouseholdConflict

  datatype Result<T> = Ok(value: T) | Err(error: DeviceError)

  datatype Claimed = Claimed(token: Secret, household: string, name: string)

  /** `claimToken` is absent when the request sends an empty one. */
  datatype ClaimRequest = ClaimRequest(claimToken: Option<Secret>, deviceId: string, hardware: string, firmware: string)

  datatype RegisterRequest = RegisterRequest(deviceId: string, name: string, hardware: string, firmware: string, rotate: bool)

  // ----- Field checks -----

  predicate IsFieldChar(c: char) {
    IsDigit(c) || 'a' <= c <= 'z' || 'A' <= c <= 'Z' || c == '-' || c == '_' || c == '.' || c == ':'
  }

  predicate ValidField(value: string, max: nat) {
    var v := Trim(value);
    0 < |v| <= max && forall i :: 0 <= i < |v| ==> IsFieldChar(v[i])
  }

  predicate ValidName(value: string) {
    var v := Trim(value);
    0 < |v| <= 100 && forall i :: 0 <= i < |v| ==> v[i] >= ' ' && v[i] != 127 as char
  }

  function Alphanumerics(s: string): string {
    if s == [] then []
    else (if IsDigit(s[0]) || 'a' <= s[0] <= 'z' || 'A' <= s[0] <= 'Z' then [s[0]] else []) + Alphanumerics(s[1..])
  }

  function Upper(s: string): string {
    seq(|s|, i requires 0 <= i < |s| =>
      if 'a' <= s[i] <= 'z' then (s[i] as int - 'a' as int + 'A' as int) as char else s[i])
  }

  function FriendlyName(deviceId: string): string {
    var a := Alphanumerics(deviceId);
    var suffix := if |a| <= 4 then a else a[|a| - 4..];
    if suffix == [] then "Mirror" else "Mirror " + Upper(suffix)
  }

  // ----- The steps -----

  predicate Active(t: Tables, deviceId: string) {
    deviceId in t.devices && !t.devices[deviceId].released
  }

  predicate Redeemable(t: Tables, token: Secret, now: int) {
    token in t.claimTokens && !t.claimTokens[token].consumed && t.claimTokens[token].expiresAt > now
  }

  function Minted(t: Tables, token: Secret, household: string, ttl: int, now: int): Tables {
    t.(claimTokens := t.claimTokens[token := ClaimToken(household, now + ttl, false)])
  }

  function ClaimRefusal(t: Tables, r: ClaimRequest, now: int): Option<DeviceError> {
    if !ValidField(r.deviceId, 128) || !ValidField(r.hardware, 100) || !ValidField(r.firmware, 100) then Some(InvalidInput)
    else if r.claimToken.None? || !Redeemable(t, r.claimToken.value, now) then Some(InvalidClaimToken)
    else if Active(t, Trim(r.deviceId)) && t.devices[Trim(r.deviceId)].household != t.claimTokens[r.claimToken.value].household
    then Some(HouseholdConflict)
    else None
  }

  function ClaimedTables(t: Tables, r: ClaimRequest, token: Secret): Tables
    requires r.claimToken.Some? && r.claimToken.value in t.claimTokens
  {
    var (secret, id) := (r.claimToken.value, Trim(r.deviceId));
    var claim := t.claimTokens[secret];
    var name := if id in t.devices then t.devices[id].name else FriendlyName(id);
    Tables(t.claimTokens[secret := claim.(consumed := true)],
           t.devices[id := Device(claim.household, name, Trim(r.hardware), Trim(r.firmware), token, false)])
  }

  function Released(t: Tables, deviceId: string): Tables {
    if deviceId in t.devices then t.(devices := t.devices[deviceId := t.devices[deviceId].(released := true)]) else t
  }

  /** Another active camera of the household already carries the name. */
  predicate NameTaken(t: Tables, household: string, name: string, deviceId: string) {
    exists d :: d in t.devices && d != deviceId && Active(t, d)
                && t.devices[d].household == household && t.devices[d].name == name
  }

  function RegisterRefusal(t: Tables, household: string, r: RegisterRequest): Option<DeviceError> {
    var id := Trim(r.deviceId);
    if !ValidField(r.deviceId, 128) || !ValidField(r.hardware, 100) || !ValidField(r.firmware, 100) || !ValidName(r.name)
    then Some(InvalidInput)
    else if Active(t, id) then
      if t.devices[id].household != household then Some(HouseholdConflict)
      else if !r.rotate then Some(InvalidInput)
      else None
    else if NameTaken(t, household, Trim(r.name), id) then Some(InvalidInput)
    else None
  }

  function RegisteredTables(t: Tables, household: string, r: RegisterRequest, token: Secret): Tables {
    t.(devices := t.devices[Trim(r.deviceId) :=
      Device(household, Trim(r.name), Trim(r.hardware), Trim(r.firmware), token, false)])
  }

  predicate Authenticates(t: Tables, token: Secret, deviceId: string) {
    Active(t, deviceId) && t.devices[deviceId].token == token
  }

  // ----- The registry -----

  class DeviceRegistry {
    var claimTokens: map<Secret, ClaimToken>
    var devices: map<string, Device>

    function State(): Tables
      reads this
    {
      Tables(claimTokens, devices)
    }

    constructor ()
      ensures State() == Tables(map[], map[])
    {
      claimTokens, devices := map[], map[];
    }

    method MintFor(household: string, ttl: int, token: Secret, now: int)
      modifies this
      ensures State() == Minted(old(State()), token, household, ttl, now)
      ensures token in claimTokens && claimTokens[token].household == household
              && claimTokens[token].expiresAt - now == ttl && !claimTokens[token].consumed
    {
      claimTokens := claimTokens[token := ClaimToken(household, now + ttl, false)];
    }

    method Claim(r: ClaimRequest, token: Secret, now: int) returns (result: Result<Claimed>)
      modifies this
      ensures result.Err? <==> ClaimRefusal(old(State()), r, now).Some?
      ensures result.Err? ==> ClaimRefusal(old(State()), r, now) == Some(result.error) && State() == old(State())
      ensures result.Ok? ==> State() == ClaimedTables(old(State()), r, token)
      ensures result.Ok? ==>
                result.value == Claimed(token, devices[Trim(r.deviceId)].household, devices[Trim(r.deviceId)].name)
      ensures result.Ok? && Trim(r.deviceId) in old(devices) ==> result.value.name == old(devices)[Trim(r.deviceId)].name
      ensures result.Ok? ==>
                && r.claimToken.Some? && r.claimToken.value in old(claimTokens)
                && var (claim, d) := (old(claimTokens)[r.claimToken.value], devices[Trim(r.deviceId)]);
                && !claim.consumed && now < claim.expiresAt && claimTokens[r.claimToken.value] == claim.(consumed := true)
                && d.household == claim.household && d.hardware == Trim(r.hardware) && d.firmware == Trim(r.firmware)
                && d.token == token && !d.released
      ensures result.Ok? ==> forall d :: d != Trim(r.deviceId) ==>
                (d in devices <==> d in old(devices)) && (d in devices ==> devices[d] == old(devices)[d])
    {
      if !ValidField(r.deviceId, 128) || !ValidField(r.hardware, 100) || !ValidField(r.firmware, 100) {
        return Err(InvalidInput);
      }
      if r.claimToken.None? {
        return Err(InvalidClaimToken);
      }
      var (secret, id) := (r.claimToken.value, Trim(r.deviceId));
      if secret !in claimTokens || claimTokens[secret].consumed || claimTokens[secret].expiresAt <= now {
        return Err(InvalidClaimToken);
      }
      var household := claimTokens[secret].household;
      if id in devices && !devices[id].released && devices[id].household != household {
        return Err(HouseholdConflict);
      }
      claimTokens := claimTokens[secret := claimTokens[secret].(consumed := true)];
      var name := if id in devices then devices[id].name else FriendlyName(id);
      devices := devices[id := Device(household, name, Trim(r.hardware), Trim(r.firmware), token, false)];
      return Ok(Claimed(token, household, name));
    }

    method Release(deviceId: string)
      modifies this
      ensures State() == Released(old(State()), deviceId)
      ensures devices.Keys == old(devices).Keys && claimTokens == old(claimTokens)
      ensures forall d :: d in devices ==>
                devices[d] == old(devices)[d].(released := d == deviceId || old(devices)[d].released)
    {
      if deviceId in devices {
        devices := devices[deviceId := devices[deviceId].(released := true)];
      }
    }

    method RegisterDevice(household: string, r: RegisterRequest, token: Secret) returns (result: Result<bool>)
      modifies this
      ensures result.Err? <==> RegisterRefusal(old(State()), household, r).Some?
      ensures result.Err? ==> RegisterRefusal(old(State()), household, r) == Some(result.error) && State() == old(State())
      ensures result.Ok? ==> State() == RegisteredTables(old(State()), household, r, token)
      ensures result.Ok? ==> result.value == Active(old(State()), Trim(r.deviceId))
      ensures result.Ok? ==>
                && claimTokens == old(claimTokens)
                && devices == old(devices)[Trim(r.deviceId) := devices[Trim(r.deviceId)]]
                && var d := devices[Trim(r.deviceId)];
                && d.household == household && d.name == Trim(r.name) && d.hardware == Trim(r.hardware)
                && d.firmware == Trim(r.firmware) && d.token == token && !d.released
    {
      if !ValidField(r.deviceId, 128) || !ValidField(r.hardware, 100) || !ValidField(r.firmware, 100) || !ValidName(r.name) {
        return Err(InvalidInput);
      }
      var id := Trim(r.deviceId);
      var existing := id in devices && !devices[id].released;
      if existing {
        if devices[id].household != household {
          return Err(HouseholdConflict);
        }
        if !r.rotate {
          return Err(InvalidInput);
        }
      } else if NameTaken(State(), household, Trim(r.name), id) {
        return Err(InvalidInput);
      }
      devices := devices[id := Device(household, Trim(r.name), Trim(r.hardware), Trim(r.firmware), token, false)];
      return Ok(existing);
    }

    method AuthenticateDevice(token: Secret) returns (deviceId: Option<string>)
      ensures deviceId.Some? ==> Authenticates(State(), token, deviceId.value)
      ensures deviceId.None? ==> forall d :: !Authenticates(State(), token, d)
    {
      if exists d :: d in devices && Authenticates(State(), token, d) {
        var d :| d in devices && Authenticates(State(), token, d);
        return Some(d);
      }
      return None;
    }
  }

  // ----- Runs -----

  datatype Action =
    | Wait(seconds: nat)
    | Mint(household: string, ttl: int)
    | Claim(request: ClaimRequest)
    | Release(deviceId: string)
    | Register(household: string, registration: RegisterRequest)

  /** A claim token's redemption. */
  datatype Redemption = Redemption(token: Secret, time: int)

  /** A device token handed out. */
  datatype Grant = Grant(deviceId: string, token: Secret)

  datatype World = World(tables: Tables, now: int, nextSecret: Secret, redeemed: seq<Redemption>, grants: seq<Grant>)

  function Act(w: World, a: Action): World {
    match a
    case Wait(seconds) => w.(now := w.now + seconds)
    case Mint(household, ttl) =>
      w.(tables := Minted(w.tables, w.nextSecret, household, ttl, w.now), nextSecret := w.nextSecret + 1)
    case Claim(r) =>
      if ClaimRefusal(w.tables, r, w.now).Some? then w
      else w.(tables := ClaimedTables(w.tables, r, w.nextSecret), nextSecret := w.nextSecret + 1,
              redeemed := w.redeemed + [Redemption(r.claimToken.value, w.now)],
              grants := w.grants + [Grant(Trim(r.deviceId), w.nextSecret)])
    case Release(id) => w.(tables := Released(w.tables, id))
    case Register(household, r) =>
      if RegisterRefusal(w.tables, household, r).Some? then w
      else w.(tables := RegisteredTables(w.tables, household, r, w.nextSecret), nextSecret := w.nextSecret + 1,
              grants := w.grants + [Grant(Trim(r.deviceId), w.nextSecret)])
  }

  function Run(w: World, actions: seq<Action>): World
    decreases |actions|
  {
    if actions == [] then w else Act(Run(w, actions[..|actions| - 1]), actions[|actions| - 1])
  }

  function Start(now: int): World {
    World(Tables(map[], map[]), now, 0, [], [])
  }

  // ----- What every run keeps -----

  /** Redeemed tokens are consumed, each once, before its expiry. */
  predicate RedeemedOk(w: World) {
    && (forall i :: 0 <= i < |w.redeemed| ==>
         && w.redeemed[i].token in w.tables.claimTokens
         && w.tables.claimTokens[w.redeemed[i].token].consumed
         && w.redeemed[i].time < w.tables.claimTokens[w.redeemed[i].token].expiresAt)
    && (forall i, j :: 0 <= i < j < |w.redeemed| ==> w.redeemed[i].token != w.redeemed[j].token)
    && (forall s :: s in w.tables.claimTokens ==> s < w.nextSecret)
  }

  /** The newest token given to a device. */
  function Newest(grants: seq<Grant>, deviceId: string): Option<Secret> {
    if grants == [] then None
    else
      var last := grants[|grants| - 1];
      if last.deviceId == deviceId then Some(last.token) else Newest(grants[..|grants| - 1], deviceId)
  }

  /** Every device holds the newest token given to it; no token is given twice. */
  ghost predicate GrantsOk(w: World) {
    && (forall d :: d in w.tables.devices <==> Newest(w.grants, d).Some?)
    && (forall d :: d in w.tables.devices ==> Newest(w.grants, d) == Some(w.tables.devices[d].token))
    && (forall i :: 0 <= i < |w.grants| ==> w.grants[i].token < w.nextSecret)
    && (forall i, j :: 0 <= i < j < |w.grants| ==> w.grants[i].token < w.grants[j].token)
  }

  ghost predicate Inv(w: World) {
    RedeemedOk(w) && GrantsOk(w)
  }

  lemma NewGrant(grants: seq<Grant>, g: Grant, d: string)
    ensures Newest(grants + [g], d) == if g.deviceId == d then Some(g.token) else Newest(grants, d)
  {
    assert (grants + [g])[..|grants|] == grants;
  }

  /** A step that hands out a token keeps the grants in order. */
  lemma GrantKeepsOk(w: World, w': World, id: string)
    requires GrantsOk(w)
    requires w'.grants == w.grants + [Grant(id, w.nextSecret)] && w'.nextSecret == w.nextSecret + 1
    requires id in w'.tables.devices && w'.tables.devices == w.tables.devices[id := w'.tables.devices[id]]
    requires w'.tables.devices[id].token == w.nextSecret
    ensures GrantsOk(w')
  {
    forall d ensures Newest(w'.grants, d) == if d == id then Some(w.nextSecret) else Newest(w.grants, d) {
      NewGrant(w.grants, Grant(id, w.nextSecret), d);
    }
  }

  lemma StepKeepsGrants(w: World, a: Action)
    requires Inv(w)
    ensures GrantsOk(Act(w, a))
  {
    match a
    case Claim(r) =>
      if ClaimRefusal(w.tables, r, w.now).None? {
        GrantKeepsOk(w, Act(w, a), Trim(r.deviceId));
      }
    case Register(household, r) =>
      if RegisterRefusal(w.tables, household, r).None? {
        GrantKeepsOk(w, Act(w, a), Trim(r.deviceId));
      }
    case _ =>
  }

  lemma StepKeepsRedeemed(w: World, a: Action)
    requires RedeemedOk(w)
    ensures RedeemedOk(Act(w, a))
  {
  }

  lemma {:induction false} RunKeepsInv(now: int, actions: seq<Action>)
    ensures Inv(Run(Start(now), actions))
    decreases |actions|
  {
    if actions != [] {
      RunKeepsInv(now, actions[..|actions| - 1]);
      var w := Run(Start(now), actions[..|actions| - 1]);
      StepKeepsGrants(w, actions[|actions| - 1]);
      StepKeepsRedeemed(w, actions[|actions| - 1]);
    }
  }

  // ----- What it means -----

  /** A claim token is redeemed at most once in any run, and always before it
      expires. */
  lemma ClaimTokensAreSingleUse(now: int, actions: seq<Action>, i: nat, j: nat)
    requires i < |Run(Start(now), actions).redeemed| && j < |Run(Start(now), actions).redeemed|
    ensures var w := Run(Start(now), actions);
            && (w.redeemed[i].token == w.redeemed[j].token ==> i == j)
            && w.redeemed[i].token in w.tables.claimTokens
            && w.redeemed[i].time < w.tables.claimTokens[w.redeemed[i].token].expiresAt
  {
    RunKeepsInv(now, actions);
  }

  /** A device token authenticates exactly the unreleased device it is the newest
      token of; a device it was never given to is never answered. */
  lemma OnlyNewestTokenAuthenticates(now: int, actions: seq<Action>, token: Secret, deviceId: string)
    ensures var w := Run(Start(now), actions);
            Authenticates(w.tables, token, deviceId)
            <==> Active(w.tables, deviceId) && Newest(w.grants, deviceId) == Some(token)
  {
    RunKeepsInv(now, actions);
  }

  lemma {:induction false} NewestIsGranted(grants: seq<Grant>, deviceId: string) returns (i: nat)
    requires Newest(grants, deviceId).Some?
    ensures i < |grants| && grants[i] == Grant(deviceId, Newest(grants, deviceId).value)
  {
    i := |grants| - 1;
    if grants[i].deviceId != deviceId {
      i := NewestIsGranted(grants[..i], deviceId);
    }
  }

  /** Two devices never answer to one token. */
  lemma TokensIdentifyDevices(now: int, actions: seq<Action>, token: Secret, d: string, e: string)
    requires Authenticates(Run(Start(now), actions).tables, token, d)
    requires Authenticates(Run(Start(now), actions).tables, token, e)
    ensures d == e
  {
    RunKeepsInv(now, actions);
    var w := Run(Start(now), actions);
    var i := NewestIsGranted(w.grants, d);
    var j := NewestIsGranted(w.grants, e);
  }

  lemma {:induction false} RunsJoin(w: World, before: seq<Action>, after: seq<Action>)
    ensures Run(w, before + after) == Run(Run(w, before), after)
    decreases |after|
  {
    if after == [] {
      assert before + after == before;
    } else {
      var n := |after| - 1;
      assert (before + after)[..|before + after| - 1] == before + after[..n];
      RunsJoin(w, before, after[..n]);
    }
  }

  /** Wherever a claim is refused in a run, the run goes on as if it had never
      been made: no table, token or log shows it. */
  lemma RefusalChangesNothing(w: World, before: seq<Action>, r: ClaimRequest, after: seq<Action>)
    requires ClaimRefusal(Run(w, before).tables, r, Run(w, before).now).Some?
    ensures Run(w, before + [Claim(r)] + after) == Run(w, before + after)
  {
    var refused := before + [Claim(r)];
    assert refused[..|refused| - 1] == before;
    assert Run(w, refused) == Run(w, before);
    RunsJoin(w, refused, after);
    RunsJoin(w, before, after);
  }

  /** One step takes an active device out of its household only by releasing it. */
  lemma StepKeepsHousehold(w: World, a: Action, d: string)
    requires Active(w.tables, d) && a != Release(d)
    ensures Active(Act(w, a).tables, d)
    ensures Act(w, a).tables.devices[d].household == w.tables.devices[d].household
  {
  }

  /** So over any stretch of a run without that release, the device stays active
      in the same household, whoever else pairs, registers or releases. */
  lemma {:induction false} HouseholdChangesOnlyAcrossRelease(w: World, actions: seq<Action>, d: string)
    requires Active(w.tables, d) && Release(d) !in actions
    ensures Active(Run(w, actions).tables, d)
    ensures Run(w, actions).tables.devices[d].household == w.tables.devices[d].household
    decreases |actions|
  {
    if actions != [] {
      HouseholdChangesOnlyAcrossRelease(w, actions[..|actions| - 1], d);
      StepKeepsHousehold(Run(w, actions[..|actions| - 1]), actions[|actions| - 1], d);
    }
  }

  /** No device token was handed to `d` between two points of a run. */
  predicate NoneGranted(w: World, later: World, d: string) {
    forall i :: |w.grants| <= i < |later.grants| ==> later.grants[i].deviceId != d
  }

  lemma StepGrows(w: World, a: Action)
    ensures w.grants <= Act(w, a).grants
  {
    hide ClaimRefusal, RegisterRefusal;
  }

  lemma {:induction false} RunGrows(w: World, actions: seq<Action>)
    ensures w.grants <= Run(w, actions).grants
    decreases |actions|
  {
    if actions != [] {
      RunGrows(w, actions[..|actions| - 1]);
      StepGrows(Run(w, actions[..|actions| - 1]), actions[|actions| - 1]);
    }
  }

  lemma StepKeepsSilent(w: World, a: Action, d: string)
    requires !Active(w.tables, d) && NoneGranted(w, Act(w, a), d)
    ensures !Active(Act(w, a).tables, d)
  {
    hide ClaimRefusal, RegisterRefusal;
    if Act(w, a).grants != w.grants {
      assert Act(w, a).grants[|w.grants|].deviceId != d;
    }
  }

  /** After its release, and until a new token is handed to it, no token
      authenticates a device, whatever else happens. */
  lemma {:induction false} ReleaseSilences(w: World, d: string, later: seq<Action>, token: Secret)
    requires NoneGranted(w, Run(Act(w, Release(d)), later), d)
    ensures !Active(Run(Act(w, Release(d)), later).tables, d)
    ensures !Authenticates(Run(Act(w, Release(d)), later).tables, token, d)
    decreases |later|
  {
    var released := Act(w, Release(d));
    if later != [] {
      var (earlier, a) := (later[..|later| - 1], later[|later| - 1]);
      var w1 := Run(released, earlier);
      RunGrows(released, earlier);
      StepGrows(w1, a);
      assert forall i :: |w.grants| <= i < |w1.grants| ==> w1.grants[i] == Act(w1, a).grants[i];
      ReleaseSilences(w, d, earlier, token);
      StepKeepsSilent(w1, a, d);
    }
  }

  /** The other direction of claiming: with a valid form, an unconsumed,
      unexpired token always succeeds unless the device is active elsewhere. */
  lemma ClaimSucceeds(w: World, r: ClaimRequest)
    requires ValidField(r.deviceId, 128) && ValidField(r.hardware, 100) && ValidField(r.firmware, 100)
    requires r.claimToken.Some? && Redeemable(w.tables, r.claimToken.value, w.now)
    requires Active(w.tables, Trim(r.deviceId)) ==>
               w.tables.devices[Trim(r.deviceId)].household == w.tables.claimTokens[r.claimToken.value].household
    ensures var w' := Act(w, Claim(r));
            && Authenticates(w'.tables, w.nextSecret, Trim(r.deviceId))
            && w'.tables.devices[Trim(r.deviceId)].household == w.tables.claimTokens[r.claimToken.value].household
            && !Redeemable(w'.tables, r.claimToken.value, w.now)
  {
  }

  /** A claim refused for its household is not lost: once the device is
      released, the same token pairs it with the new household. */
  lemma ConflictClearsOnRelease(w: World, r: ClaimRequest)
    requires ClaimRefusal(w.tables, r, w.now) == Some(HouseholdConflict)
    ensures var id := Trim(r.deviceId);
            var n := Run(w, [Claim(r), Release(id), Claim(r)]);
            && Authenticates(n.tables, w.nextSecret, id)
            && n.tables.devices[id].household == w.tables.claimTokens[r.claimToken.value].household
            && n.tables.devices[id].household != w.tables.devices[id].household
  {
    var id := Trim(r.deviceId);
    var released := Act(w, Release(id));
    ClaimSucceeds(released, r);
    var steps := [Claim(r), Release(id), Claim(r)];
    assert steps[..2] == [Claim(r), Release(id)] && steps[..2][..1] == [Claim(r)] && steps[..1][..0] == [];
    assert Run(w, [Claim(r)]) == w;
    assert Run(w, steps[..2]) == released;
  }

  // ----- Names -----

  /** `part` is what is left of `s` without the characters that are not letters
      or digits. */
  predicate IsLettersAndDigitsOf(part: string, s: string)
    decreases |s|
  {
    if s == [] then part == []
    else if IsDigit(s[0]) || 'a' <= s[0] <= 'z' || 'A' <= s[0] <= 'Z'
    then part != [] && part[0] == s[0] && IsLettersAndDigitsOf(part[1..], s[1..])
    else IsLettersAndDigitsOf(part, s[1..])
  }

  lemma {:induction false} AlphanumericsAre(s: string)
    ensures IsLettersAndDigitsOf(Alphanumerics(s), s)
  {
    if s != [] {
      AlphanumericsAre(s[1..]);
      var rest := Alphanumerics(s[1..]);
      assert [] + rest == rest && ([s[0]] + rest)[1..] == rest;
    }
  }

  /** A new device is called Mirror and the last four letters and digits of its
      ID, in capitals; all of them where there are fewer, and just Mirror where
      there are none. */
  lemma FriendlyNameMeans(deviceId: string) returns (part: string)
    ensures IsLettersAndDigitsOf(part, deviceId)
    ensures part == "" ==> FriendlyName(deviceId) == "Mirror"
    ensures part != "" ==>
              var (name, n) := (FriendlyName(deviceId), if |part| < 4 then |part| else 4);
              && |name| == 7 + n && name[..7] == "Mirror "
              && forall i :: 7 <= i < |name| ==>
                   var c := part[|part| - |name| + i];
                   name[i] == if 'a' <= c <= 'z' then (c as int - 32) as char else c
  {
    part := Alphanumerics(deviceId);
    AlphanumericsAre(deviceId);
    hide Alphanumerics, IsLettersAndDigitsOf;
  }

  /** The name a device last registered with, or else the one it was given when
      it was first claimed. */
  function NamedBy(w: World, a: Action, deviceId: string, before: string): string {
    if a.Register? && Trim(a.registration.deviceId) == deviceId
       && RegisterRefusal(w.tables, a.household, a.registration).None?
    then Trim(a.registration.name)
    else if a.Claim? && Trim(a.request.deviceId) == deviceId && deviceId !in w.tables.devices
    then FriendlyName(deviceId) else before
  }

  /** Claims and releases never rename a device: it carries the name it was last
      registered with, or the one its first claim gave it. */
  lemma NamesStay(w: World, a: Action, deviceId: string)
    requires deviceId in Act(w, a).tables.devices
    ensures Act(w, a).tables.devices[deviceId].name
         == NamedBy(w, a, deviceId, if deviceId in w.tables.devices then w.tables.devices[deviceId].name else "")
  {
    hide FriendlyName, ValidField, ValidName, NameTaken, Trim;
  }

  // ----- Refusals, said of the request and the tables -----

  /** Digits and letters by their codes, and four marks. */
  predicate Allowed(c: char) {
    48 <= c as int <= 57 || 65 <= c as int <= 90 || 97 <= c as int <= 122 || c in {'-', '_', '.', ':'}
  }

  /** An ID of up to 128 allowed characters, and up to 100 for the hardware and
      the firmware; what surrounds them is trimmed. */
  predicate FieldsOk(deviceId: string, hardware: string, firmware: string) {
    && 1 <= |Trim(deviceId)| <= 128 && 1 <= |Trim(hardware)| <= 100 && 1 <= |Trim(firmware)| <= 100
    && forall c :: c in Trim(deviceId) || c in Trim(hardware) || c in Trim(firmware) ==> Allowed(c)
  }

  lemma FieldsAreOk(deviceId: string, hardware: string, firmware: string)
    ensures FieldsOk(deviceId, hardware, firmware)
       <==> ValidField(deviceId, 128) && ValidField(hardware, 100) && ValidField(firmware, 100)
  {
    hide Trim;
    FieldIsOk(deviceId, 128);
    FieldIsOk(hardware, 100);
    FieldIsOk(firmware, 100);
    hide ValidField, Allowed;
  }

  lemma FieldIsOk(value: string, max: nat)
    ensures ValidField(value, max) <==> 1 <= |Trim(value)| <= max && forall c :: c in Trim(value) ==> Allowed(c)
  {
    hide Trim;
    var v := Trim(value);
    if forall c :: c in v ==> Allowed(c) {
      forall i | 0 <= i < |v|
        ensures IsFieldChar(v[i])
      {
        assert v[i] in v;
      }
    }
  }

  /** A claim is refused exactly when a field is wrong, or the token is not
      there, used or expired, or the device is an active one of another
      household; in this order. */
  lemma ClaimRefusedWhen(t: Tables, r: ClaimRequest, now: int)
    ensures var (refusal, id) := (ClaimRefusal(t, r, now), Trim(r.deviceId));
            var fields := FieldsOk(r.deviceId, r.hardware, r.firmware);
            var token := r.claimToken.Some? && r.claimToken.value in t.claimTokens
                         && !t.claimTokens[r.claimToken.value].consumed && now < t.claimTokens[r.claimToken.value].expiresAt;
            && (refusal == Some(InvalidInput) <==> !fields)
            && (refusal == Some(InvalidClaimToken) <==> fields && !token)
            && (refusal == Some(HouseholdConflict) <==>
                  fields && token && id in t.devices && !t.devices[id].released
                  && t.devices[id].household != t.claimTokens[r.claimToken.value].household)
  {
    FieldsAreOk(r.deviceId, r.hardware, r.firmware);
    hide ValidField, FieldsOk;
  }

  /** A registration is refused as a conflict exactly when the device is an
      active one of another household, and as invalid exactly when a field or
      the name is wrong, or the device is the household's already and is not to
      be rotated, or another active device of the household has the name. */
  lemma RegisterRefusedWhen(t: Tables, household: string, r: RegisterRequest)
    ensures var (refusal, id, name) := (RegisterRefusal(t, household, r), Trim(r.deviceId), Trim(r.name));
            var wellFormed := FieldsOk(r.deviceId, r.hardware, r.firmware) && 1 <= |name| <= 100
                              && forall c :: c in name ==> c as int >= 32 && c as int != 127;
            var active := id in t.devices && !t.devices[id].released;
            && (refusal == Some(HouseholdConflict) <==> wellFormed && active && t.devices[id].household != household)
            && (refusal == Some(InvalidInput) <==>
                  || !wellFormed
                  || (active && t.devices[id].household == household && !r.rotate)
                  || (!active && exists d :: d in t.devices && d != id && !t.devices[d].released
                                             && t.devices[d].household == household && t.devices[d].name == name))
            && refusal != Some(InvalidClaimToken)
  {
    FieldsAreOk(r.deviceId, r.hardware, r.firmware);
    NameIsOk(r.name);
    NameIsTaken(t, household, Trim(r.name), Trim(r.deviceId));
    hide ValidField, ValidName, FieldsOk, NameTaken, Trim;
  }

  lemma NameIsOk(value: string)
    ensures ValidName(value)
       <==> 1 <= |Trim(value)| <= 100 && forall c :: c in Trim(value) ==> c as int >= 32 && c as int != 127
  {
    hide Trim;
    var v := Trim(value);
    if forall c :: c in v ==> c as int >= 32 && c as int != 127 {
      forall i | 0 <= i < |v|
        ensures v[i] >= ' ' && v[i] != 127 as char
      {
        assert v[i] in v;
      }
    }
  }

  lemma NameIsTaken(t: Tables, household: string, name: string, id: string)
    ensures NameTaken(t, household, name, id)
       <==> exists d :: d in t.devices && d != id && !t.devices[d].released
                        && t.devices[d].household == household && t.devices[d].name == name
  {
  }
}
