/** The scenario validator: which versions it accepts, and the upgrades of older scenarios. */
module ScenarioValidator {
  import opened Common
  import opened ScenarioTree

  // ----- Versions

  /** A semantic version; a pre-release comes before the release it names. */
  datatype Version = Version(major: nat, minor: nat, patch: nat, prerelease: bool)

  /** The version field of a scenario, as the parser finds it. */
  datatype VersionField = Absent | Malformed | Given(version: Version)

  const VERSION_130 := Version(1, 3, 0, false)
  const VERSION_140 := Version(1, 4, 0, false)
  const VERSION_150 := Version(1, 5, 0, false)
  const VALIDATOR_VERSION := VERSION_150

  predicate TripleLT(a: Version, b: Version) {
    a.major < b.major || (a.major == b.major && (a.minor < b.minor || (a.minor == b.minor && a.patch < b.patch)))
  }

  predicate SameTriple(a: Version, b: Version) {
    a.major == b.major && a.minor == b.minor && a.patch == b.patch
  }

  predicate LT(a: Version, b: Version) {
    TripleLT(a, b) || (SameTriple(a, b) && a.prerelease && !b.prerelease)
  }

  predicate EQ(a: Version, b: Version) {
    SameTriple(a, b) && !a.prerelease && !b.prerelease
  }

  /** The scenario is of the validator's major version, not newer, and at least 1.3.0. */
  predicate Compatible(v: Version) {
    v.major == VALIDATOR_VERSION.major && !LT(VALIDATOR_VERSION, v) && !LT(v, VERSION_130)
  }

  /** Compatible versions that are not current: those from 1.3.0 on that come before 1.5.0. */
  lemma OlderVersions(v: Version)
    ensures Compatible(v) && !EQ(v, VALIDATOR_VERSION)
      <==> v.major == 1 && (v.minor == 3 || v.minor == 4 || (v.minor == 5 && v.patch == 0 && v.prerelease))
           && !(v.minor == 3 && v.patch == 0 && v.prerelease)
  {
  }

  // ----- Scenarios

  datatype Scenario = Scenario(version: VersionField, deployment: Option<Element>)

  datatype Status = Valid | Updated | Error

  const NO_LEGACY := Legacy(0, 0, 0, 0.0)
  const DEFAULT_LATENCY_DISTRIBUTION := "Normal"

  /** The characteristics in force at an element: latency, jitter, loss, and the rate of each direction. */
  datatype Effect = Effect(latency: int, latencyVariation: int, packetLoss: real, dl: int, ul: int)

  /** Those of the NetChar if there is one, where a direction without a rate has the single rate; else
      those of the older fields. */
  function EffectOf(data: Data): Effect {
    match data.netChar
    case Some(nc) =>
      Effect(nc.latency, nc.latencyVariation, nc.packetLoss,
        if nc.throughputDl != 0 then nc.throughputDl else nc.throughput,
        if nc.throughputUl != 0 then nc.throughputUl else nc.throughput)
    case None =>
      Effect(data.legacy.latency, data.legacy.latencyVariation, data.legacy.packetLoss,
        data.legacy.throughput, data.legacy.throughput)
  }

  // ----- The upgrades of one element

  function CreateNetChar(legacy: Legacy, distribution: string): NetChar {
    NetChar(legacy.latency, legacy.latencyVariation, distribution, legacy.packetLoss, 0, legacy.throughput, legacy.throughput)
  }

  /** The upgrade of a zone to 1.4.0. */
  function ZoneTo140(data: Data): Data {
    var nc := if data.netChar.Some? then data.netChar.value else
      NetChar(data.legacy.latency, data.legacy.latencyVariation, "", data.legacy.packetLoss, data.legacy.throughput, 0, 0);
    data.(netChar := Some(nc), legacy := NO_LEGACY, interFog := NO_LEGACY, interEdge := NO_LEGACY)
  }

  /** The upgrade of a zone to 1.5.0. */
  function ZoneTo150(data: Data): Data
    requires data.netChar.Some?
  {
    var nc := data.netChar.value;
    var rated := if nc.throughputDl == 0 then nc.(throughputDl := nc.throughput, throughputUl := nc.throughput) else nc;
    data.(netChar := Some(rated.(throughput := 0)))
  }

  /** The upgrade of any other element to 1.5.0. */
  function DataTo150(data: Data, level: nat): Data {
    var distribution := if level == DEPLOYMENT_LEVEL then DEFAULT_LATENCY_DISTRIBUTION else "";
    var nc := if data.netChar.Some? then data.netChar.value else CreateNetChar(data.legacy, distribution);
    data.(netChar := Some(nc), legacy := NO_LEGACY)
  }

  // ----- The upgrades of the tree

  /** Every zone has a NetChar. */
  predicate ZonesHaveNetChar(e: Element, level: nat)
    decreases e
  {
    && (level == ZONE_LEVEL ==> e.data.netChar.Some?)
    && forall i :: 0 <= i < |e.children| ==> ZonesHaveNetChar(e.children[i], level + 1)
  }

  function To140(e: Element, level: nat): Element
    decreases e
  {
    var data := if level == ZONE_LEVEL then ZoneTo140(e.data) else e.data;
    var children := if level < ZONE_LEVEL then seq(|e.children|, i requires 0 <= i < |e.children| => To140(e.children[i], level + 1)) else e.children;
    e.(data := data, children := children)
  }

  function To150(e: Element, level: nat): Element
    requires ZonesHaveNetChar(e, level)
    decreases e
  {
    var data := if level == ZONE_LEVEL then ZoneTo150(e.data) else DataTo150(e.data, level);
    e.(data := data,
       children := seq(|e.children|, i requires 0 <= i < |e.children| => To150(e.children[i], level + 1)))
  }

  method UpgradeScenarioTo140(e: Element, level: nat) returns (r: Element)
    requires level <= ZONE_LEVEL
    ensures r == To140(e, level)
    decreases e
  {
    r := e;
    if level == ZONE_LEVEL {
      if r.data.netChar.None? {
        var l := r.data.legacy;
        r := r.(data := r.data.(netChar := Some(NetChar(l.latency, l.latencyVariation, "", l.packetLoss, l.throughput, 0, 0))));
      }
      r := r.(data := r.data.(interEdge := NO_LEGACY));
      r := r.(data := r.data.(interFog := NO_LEGACY));
      r := r.(data := r.data.(legacy := NO_LEGACY));
      return;
    }
    for i := 0 to |e.children|
      invariant |r.children| == |e.children| && r.(children := e.children) == e
      invariant forall k :: 0 <= k < i ==> r.children[k] == To140(e.children[k], level + 1)
      invariant forall k :: i <= k < |e.children| ==> r.children[k] == e.children[k]
    {
      var child := UpgradeScenarioTo140(r.children[i], level + 1);
      r := r.(children := r.children[i := child]);
    }
    assert r.children == To140(e, level).children;
  }

  method UpgradeScenarioTo150(e: Element, level: nat) returns (r: Element)
    requires ZonesHaveNetChar(e, level)
    ensures r == To150(e, level)
    decreases e
  {
    r := e;
    if level == ZONE_LEVEL {
      var nc := r.data.netChar.value;
      if nc.throughputDl == 0 {
        nc := nc.(throughputDl := nc.throughput);
        nc := nc.(throughputUl := nc.throughput);
      }
      nc := nc.(throughput := 0);
      r := r.(data := r.data.(netChar := Some(nc)));
    } else {
      if r.data.netChar.None? {
        var distribution := if level == DEPLOYMENT_LEVEL then DEFAULT_LATENCY_DISTRIBUTION else "";
        r := r.(data := r.data.(netChar := Some(CreateNetChar(r.data.legacy, distribution))));
      }
      r := r.(data := r.data.(legacy := NO_LEGACY));
    }
    ghost var data := r.data;
    for i := 0 to |e.children|
      invariant |r.children| == |e.children| && r.(children := e.children) == e.(data := data)
      invariant forall k :: 0 <= k < i ==> r.children[k] == To150(e.children[k], level + 1)
      invariant forall k :: i <= k < |e.children| ==> r.children[k] == e.children[k]
    {
      var child := UpgradeScenarioTo150(r.children[i], level + 1);
      r := r.(children := r.children[i := child]);
    }
    assert r.children == To150(e, level).children;
  }

  // ----- What the upgrades keep

  lemma {:induction false} To140GivesNetChars(e: Element, level: nat)
    requires level <= ZONE_LEVEL && Leveled(e, level)
    ensures ZonesHaveNetChar(To140(e, level), level)
    decreases e
  {
    var r := To140(e, level);
    if level == ZONE_LEVEL {
      forall i | 0 <= i < |r.children| { BelowZones(r.children[i], level + 1); }
    } else {
      forall i | 0 <= i < |e.children| { To140GivesNetChars(e.children[i], level + 1); }
    }
  }

  lemma {:induction false} BelowZones(e: Element, level: nat)
    requires level > ZONE_LEVEL
    ensures ZonesHaveNetChar(e, level)
    decreases e
  {
    forall i | 0 <= i < |e.children| { BelowZones(e.children[i], level + 1); }
  }

  /** The element at a place is upgraded by itself; places, names and types stay. */
  lemma {:induction false} To140At(e: Element, level: nat, loc: Loc)
    ensures IsLoc(To140(e, level), loc) <==> IsLoc(e, loc)
    ensures IsLoc(e, loc) ==>
      var before, after := At(e, loc), At(To140(e, level), loc);
      && after.name == before.name && after.kind == before.kind && |after.children| == |before.children|
      && after.data == if level + |loc| == ZONE_LEVEL then ZoneTo140(before.data) else before.data
    decreases |loc|
  {
    if loc != [] && loc[0] < |e.children| {
      if level < ZONE_LEVEL {
        To140At(e.children[loc[0]], level + 1, loc[1..]);
      }
    }
  }

  lemma {:induction false} To150At(e: Element, level: nat, loc: Loc)
    requires ZonesHaveNetChar(e, level)
    ensures IsLoc(To150(e, level), loc) <==> IsLoc(e, loc)
    ensures IsLoc(e, loc) ==>
      var before, after := At(e, loc), At(To150(e, level), loc);
      && after.name == before.name && after.kind == before.kind && |after.children| == |before.children|
      && (level + |loc| == ZONE_LEVEL ==> before.data.netChar.Some?)
      && after.data == if level + |loc| == ZONE_LEVEL then ZoneTo150(before.data) else DataTo150(before.data, level + |loc|)
    decreases |loc|
  {
    if loc != [] && loc[0] < |e.children| {
      To150At(e.children[loc[0]], level + 1, loc[1..]);
    }
  }

  /** The rates of a zone's NetChar that survive the upgrade to 1.5.0: without a downlink rate the uplink
      rate must be missing or equal to the single rate, and with one it must not rely on the single rate. */
  predicate RatesSurvive(nc: NetChar) {
    if nc.throughputDl == 0 then nc.throughputUl == 0 || nc.throughputUl == nc.throughput
    else nc.throughputUl != 0 || nc.throughput == 0
  }

  /** The upgrade to 1.5.0 keeps what is in force at an element, at a zone exactly when its rates survive. */
  lemma To150KeepsEffect(root: Element, loc: Loc)
    requires ZonesHaveNetChar(root, DEPLOYMENT_LEVEL) && IsLoc(root, loc)
    ensures IsLoc(To150(root, DEPLOYMENT_LEVEL), loc)
    ensures |loc| == ZONE_LEVEL ==> At(root, loc).data.netChar.Some?
    ensures EffectOf(At(To150(root, DEPLOYMENT_LEVEL), loc).data) == EffectOf(At(root, loc).data)
      <==> |loc| == ZONE_LEVEL ==> RatesSurvive(At(root, loc).data.netChar.value)
  {
    To150At(root, DEPLOYMENT_LEVEL, loc);
  }

  /** The upgrade from before 1.4.0 keeps what is in force at an element, and at a zone with a NetChar
      exactly when its rates survive. */
  lemma UpgradeKeepsEffect(root: Element, loc: Loc)
    requires Leveled(root, DEPLOYMENT_LEVEL) && IsLoc(root, loc)
    ensures ZonesHaveNetChar(To140(root, DEPLOYMENT_LEVEL), DEPLOYMENT_LEVEL)
    ensures var r := To150(To140(root, DEPLOYMENT_LEVEL), DEPLOYMENT_LEVEL);
      && IsLoc(r, loc) && At(r, loc).name == At(root, loc).name && At(r, loc).kind == At(root, loc).kind
      && |At(r, loc).children| == |At(root, loc).children|
      && (EffectOf(At(r, loc).data) == EffectOf(At(root, loc).data)
          <==> |loc| == ZONE_LEVEL && At(root, loc).data.netChar.Some? ==> RatesSurvive(At(root, loc).data.netChar.value))
      && At(r, loc).data.legacy == NO_LEGACY
      && (|loc| == ZONE_LEVEL ==> At(r, loc).data.interFog == At(r, loc).data.interEdge == NO_LEGACY)
  {
    To140GivesNetChars(root, DEPLOYMENT_LEVEL);
    To140At(root, DEPLOYMENT_LEVEL, loc);
    To150KeepsEffect(To140(root, DEPLOYMENT_LEVEL), loc);
    To150At(To140(root, DEPLOYMENT_LEVEL), DEPLOYMENT_LEVEL, loc);
  }

  /** After an upgrade every element has a NetChar: the one it had, but for a zone's rates, or one made of the
      older fields, with a distribution for the deployment alone. */
  lemma UpgradeGivesNetChar(root: Element, loc: Loc)
    requires ZonesHaveNetChar(root, DEPLOYMENT_LEVEL) && IsLoc(root, loc)
    ensures IsLoc(To150(root, DEPLOYMENT_LEVEL), loc)
    ensures var before, after := At(root, loc).data, At(To150(root, DEPLOYMENT_LEVEL), loc).data;
      && after.netChar.Some? && after.id == before.id && after.meSvcName == before.meSvcName
      && (|loc| != ZONE_LEVEL ==> after.legacy == NO_LEGACY)
      && (before.netChar.None? ==>
          after.netChar.value.distribution == (if loc == [] then "Normal" else "") && after.netChar.value.throughput == 0)
      && (before.netChar.Some? && |loc| != ZONE_LEVEL ==> after.netChar == before.netChar)
      && (before.netChar.Some? && |loc| == ZONE_LEVEL ==>
          after.netChar.value.distribution == before.netChar.value.distribution && after.netChar.value.throughput == 0)
  {
    To150At(root, DEPLOYMENT_LEVEL, loc);
  }

  /** A zone without a NetChar gets one without a distribution from the first upgrade; what an element has is
      else left alone by it, but for the older fields of zones. */
  lemma FirstUpgradeGivesNetChar(root: Element, loc: Loc)
    requires IsLoc(root, loc)
    ensures IsLoc(To140(root, DEPLOYMENT_LEVEL), loc)
    ensures var before, after := At(root, loc).data, At(To140(root, DEPLOYMENT_LEVEL), loc).data;
      && after.id == before.id && after.meSvcName == before.meSvcName
      && (|loc| != ZONE_LEVEL ==> after == before)
      && (|loc| == ZONE_LEVEL ==> after.legacy == after.interFog == after.interEdge == NO_LEGACY && after.netChar.Some?)
      && (before.netChar.Some? ==> after.netChar == before.netChar)
      && (|loc| == ZONE_LEVEL && before.netChar.None? ==> after.netChar.value.distribution == "")
  {
    To140At(root, DEPLOYMENT_LEVEL, loc);
  }

  /** A zone with an uplink rate and no downlink rate has its uplink rate overwritten. */
  lemma UplinkRateLost(latency: int, loss: real)
    ensures var data := Data("", Some(NetChar(latency, 0, "", loss, 100, 0, 20)), NO_LEGACY, NO_LEGACY, NO_LEGACY, "");
      EffectOf(data).ul == 20 && EffectOf(ZoneTo150(data)).ul == 100
  {
  }

  // ----- Upgrading again

  lemma {:induction false} To140Again(e: Element, level: nat)
    ensures To140(To140(e, level), level) == To140(e, level)
    decreases e
  {
    var once := To140(e, level);
    if level < ZONE_LEVEL {
      forall i | 0 <= i < |e.children| ensures To140(once.children[i], level + 1) == once.children[i] {
        To140Again(e.children[i], level + 1);
      }
      assert To140(once, level).children == once.children;
    }
  }

  lemma {:induction false} To150Again(e: Element, level: nat)
    requires ZonesHaveNetChar(e, level)
    ensures ZonesHaveNetChar(To150(e, level), level)
    ensures To150(To150(e, level), level) == To150(e, level)
    decreases e
  {
    var once := To150(e, level);
    forall i | 0 <= i < |e.children|
      ensures ZonesHaveNetChar(once.children[i], level + 1) && To150(once.children[i], level + 1) == once.children[i]
    {
      To150Again(e.children[i], level + 1);
    }
    assert ZonesHaveNetChar(once, level);
    assert To150(once, level).children == once.children;
  }

  // ----- Validation

  /** What the upgrade to 1.5.0 demands of a scenario of 1.4.x. */
  predicate CanUpgrade(s: Scenario) {
    s.version.Given? && Is14(s.version.version) && s.deployment.Some? ==> ZonesHaveNetChar(s.deployment.value, DEPLOYMENT_LEVEL)
  }

  /** A compatible version that needs the upgrade to 1.5.0 alone. */
  predicate Is14(v: Version) {
    Compatible(v) && !LT(v, VERSION_140) && !EQ(v, VALIDATOR_VERSION)
  }

  /** The tree after the upgrades that apply; none does to a scenario without a version. */
  function Upgraded(s: Scenario): Option<Element>
    requires CanUpgrade(s) && (s.deployment.Some? ==> Leveled(s.deployment.value, DEPLOYMENT_LEVEL))
    requires s.version.Given? ==> Compatible(s.version.version) && !EQ(s.version.version, VALIDATOR_VERSION)
  {
    if s.deployment.None? || !s.version.Given? then s.deployment
    else if LT(s.version.version, VERSION_140) then
      To140GivesNetChars(s.deployment.value, DEPLOYMENT_LEVEL);
      Some(To150(To140(s.deployment.value, DEPLOYMENT_LEVEL), DEPLOYMENT_LEVEL))
    else Some(To150(s.deployment.value, DEPLOYMENT_LEVEL))
  }

  /** The result and status of a validation; on an error the scenario is the one given. */
  function Validated(s: Scenario): (Scenario, Status)
    requires CanUpgrade(s) && (s.deployment.Some? ==> Leveled(s.deployment.value, DEPLOYMENT_LEVEL))
  {
    if s.version.Malformed? || (s.version.Given? && !Compatible(s.version.version)) then (s, Error)
    else if s.version.Given? && EQ(s.version.version, VALIDATOR_VERSION) then (s, Valid)
    else (Scenario(Given(VALIDATOR_VERSION), Upgraded(s)), Updated)
  }

  method ValidateScenario(s: Scenario) returns (r: Scenario, status: Status)
    requires CanUpgrade(s) && (s.deployment.Some? ==> Leveled(s.deployment.value, DEPLOYMENT_LEVEL))
    ensures (r, status) == Validated(s)
  {
    r := s;
    var version := VALIDATOR_VERSION;
    if !s.version.Absent? {
      if s.version.Malformed? {
        return s, Error;
      }
      version := s.version.version;
      if version.major != VALIDATOR_VERSION.major || LT(VALIDATOR_VERSION, version) || LT(version, VERSION_130) {
        return s, Error;
      }
      if EQ(version, VALIDATOR_VERSION) {
        return s, Valid;
      }
    }
    if LT(version, VERSION_140) {
      if r.deployment.Some? {
        To140GivesNetChars(r.deployment.value, DEPLOYMENT_LEVEL);
        var upgraded := UpgradeScenarioTo140(r.deployment.value, DEPLOYMENT_LEVEL);
        r := r.(deployment := Some(upgraded));
      }
      version := VERSION_140;
    }
    if LT(version, VERSION_150) {
      if r.deployment.Some? {
        var upgraded := UpgradeScenarioTo150(r.deployment.value, DEPLOYMENT_LEVEL);
        r := r.(deployment := Some(upgraded));
      }
      version := VERSION_150;
    }
    r := r.(version := Given(VALIDATOR_VERSION));
    status := Updated;
  }

  /** What a validation has updated, the next finds valid and returns as it is. */
  lemma UpdatedIsThenValid(s: Scenario)
    requires CanUpgrade(s) && (s.deployment.Some? ==> Leveled(s.deployment.value, DEPLOYMENT_LEVEL))
    requires Validated(s).1 == Updated
    ensures var r := Validated(s).0;
      && CanUpgrade(r) && (r.deployment.Some? ==> Leveled(r.deployment.value, DEPLOYMENT_LEVEL)) && Validated(r) == (r, Valid)
  {
    if s.deployment.Some? && s.version.Given? {
      if LT(s.version.version, VERSION_140) {
        To140GivesNetChars(s.deployment.value, DEPLOYMENT_LEVEL);
        To140Leveled(s.deployment.value, DEPLOYMENT_LEVEL);
        To150Leveled(To140(s.deployment.value, DEPLOYMENT_LEVEL), DEPLOYMENT_LEVEL);
      } else {
        To150Leveled(s.deployment.value, DEPLOYMENT_LEVEL);
      }
    }
  }

  /** What is in force at an element survives the upgrades: at a zone with a NetChar if its rates do. */
  predicate EffectStays(before: Data, level: nat) {
    level == ZONE_LEVEL ==> before.netChar.Some? ==> RatesSurvive(before.netChar.value)
  }

  /** A scenario is refused if its version cannot be read or is none of those from 1.3.0 to 1.5.0, and left alone
      if that is the current one; of every other one each element comes out with a NetChar and no older
      fields, in force what was in force before, at a zone exactly when its rates survive. */
  lemma ValidatedMeans(s: Scenario, loc: Loc)
    requires CanUpgrade(s) && (s.deployment.Some? ==> Leveled(s.deployment.value, DEPLOYMENT_LEVEL))
    ensures var (r, status) := Validated(s);
      && (status == Error <==> s.version.Malformed? || (s.version.Given? && !Compatible(s.version.version)))
      && (status == Valid <==> s.version == Given(VERSION_150))
      && (status != Updated ==> r == s)
      && (status == Updated ==> r.version == Given(VERSION_150) && (r.deployment.Some? <==> s.deployment.Some?))
      && (status == Updated && s.version.Given? && s.deployment.Some? && IsLoc(s.deployment.value, loc) ==>
          && IsLoc(r.deployment.value, loc)
          && var before, after := At(s.deployment.value, loc), At(r.deployment.value, loc);
          && after.name == before.name && after.kind == before.kind && |after.children| == |before.children|
          && after.data.netChar.Some? && (|loc| != ZONE_LEVEL ==> after.data.legacy == NO_LEGACY)
          && (EffectOf(after.data) == EffectOf(before.data) <==> EffectStays(before.data, |loc|))
          && (|loc| == ZONE_LEVEL ==>
              var v := s.version.version;
              if v.minor < 4 || (v.minor == 4 && v.patch == 0 && v.prerelease) then
                after.data.legacy == after.data.interFog == after.data.interEdge == NO_LEGACY
              else
                after.data == before.data.(netChar := after.data.netChar)))
  {
    if s.version.Given? && Compatible(s.version.version) && !EQ(s.version.version, VALIDATOR_VERSION) && s.deployment.Some?
       && IsLoc(s.deployment.value, loc)
    {
      var root := s.deployment.value;
      if LT(s.version.version, VERSION_140) {
        UpgradeKeepsEffect(root, loc);
        To140At(root, DEPLOYMENT_LEVEL, loc);
        UpgradeGivesNetChar(To140(root, DEPLOYMENT_LEVEL), loc);
      } else {
        To150KeepsEffect(root, loc);
        To150At(root, DEPLOYMENT_LEVEL, loc);
        UpgradeGivesNetChar(root, loc);
      }
    }
  }

  lemma {:induction false} To140Leveled(e: Element, level: nat)
    requires Leveled(e, level)
    ensures Leveled(To140(e, level), level)
    decreases e
  {
    forall i | 0 <= i < |e.children| ensures Leveled(To140(e, level).children[i], level + 1) {
      if level < ZONE_LEVEL { To140Leveled(e.children[i], level + 1); }
    }
  }

  lemma {:induction false} To150Leveled(e: Element, level: nat)
    requires Leveled(e, level) && ZonesHaveNetChar(e, level)
    ensures Leveled(To150(e, level), level)
    decreases e
  {
    forall i | 0 <= i < |e.children| ensures Leveled(To150(e, level).children[i], level + 1) {
      To150Leveled(e.children[i], level + 1);
    }
  }

  /** A scenario without a version is marked current with its older fields left as they are. */
  lemma NoVersionNoUpgrade(e: Element)
    requires Leveled(e, DEPLOYMENT_LEVEL)
    ensures var s := Scenario(Absent, Some(e)); Validated(s) == (Scenario(Given(VALIDATOR_VERSION), Some(e)), Updated)
  {
  }
}
