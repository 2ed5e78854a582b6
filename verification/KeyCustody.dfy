/** Custody of the CloudFront signing key: provisioning, reuse, rotation and the
    stored configuration, with any AWS call refused or its answer lost
    (api/internal/cloudfront/provision.go:69-149; rotate.go:23-124; store.go:29-102).
    Keys, identifiers and domains are numbers; an empty string is None. */
module KeyCustody {
  import opened Wrappers

  datatype Info = Info(
    dist: Option<nat>,
    domain: Option<nat>,
    keyPair: Option<nat>,
    keyGroup: Option<nat>,
    oac: Option<nat>,
    cache: Option<nat>
  )

  /** The aws_config columns; the key is the private half of a generated pair. */
  datatype Stored = Stored(enabled: bool, info: Info, key: Option<nat>)

  const NOTHING := Info(None, None, None, None, None, None)

  /** Fixed names of a fresh run, in the order it claims them, and those of a
      rotation, which carry its time. */
  datatype Name =
    | BaseOac
    | BaseKey
    | BaseGroup
    | BaseCache
    | RotatedKey(suffix: nat)
    | RotatedGroup(suffix: nat)

  datatype Dist = Dist(tagged: bool, trusts: nat)

  /** What a provisioning run does next. */
  datatype Phase =
    | Oac(pair: nat)
    | PublicKey(pair: nat, oac: nat)
    | Group(pair: nat, oac: nat, pub: nat)
    | Cache(pair: nat, oac: nat, pub: nat, group: nat)
    | Create(pair: nat, oac: nat, pub: nat, group: nat, cache: nat)
    | Tag(info: Info, pair: nat)
    | Check(info: Info)                                   // reuse: is a key stored?
    | NewKey(info: Info, pair: nat)                       // rotation
    | NewGroup(info: Info, pair: nat, pub: nat)
    | Trust(info: Info, pair: nat, pub: nat, group: nat)
    | Policy(info: Info, pair: nat)
    | Persist(info: Info, key: Option<nat>)

  /** The account, the stored configuration and the runs in progress. */
  datatype State = State(
    dists: map<nat, Dist>,
    groups: map<nat, nat>,       // key group to the public key in it
    pubs: map<nat, nat>,         // public key to its pair
    names: set<Name>,
    next: nat,
    stored: Stored,
    active: map<nat, Phase>,
    strict: bool
  )

  const START := State(map[], map[], map[], {}, 0, Stored(false, NOTHING, None), map[], false)

  /** A step works, is refused, or works without the run getting to know. */
  datatype Result = Done | Refused | Unanswered

  datatype Event =
    | Begin(r: nat, found: Option<nat>)
    | Step(r: nat, result: Result, suffix: nat)
    | Disabled
    | Crashed

  /** The name a step claims. */
  function NameOf(p: Phase, suffix: nat): Option<Name> {
    match p
    case Oac(_) => Some(BaseOac)
    case PublicKey(_, _) => Some(BaseKey)
    case Group(_, _, _) => Some(BaseGroup)
    case Cache(_, _, _, _) => Some(BaseCache)
    case NewKey(_, _) => Some(RotatedKey(suffix))
    case NewGroup(_, _, _) => Some(RotatedGroup(suffix))
    case _ => None
  }

  /** Names of keys and key groups are unique in an account. Whether those of
      access controls and cache policies are too is left to the account. */
  predicate Taken(s: State, name: Name) {
    name in s.names && (s.strict || !(name.BaseOac? || name.BaseCache?))
  }

  predicate Tagged(s: State, d: nat) {
    d in s.dists && s.dists[d].tagged
  }

  /** Lookups may miss the distribution. Two runs are never active at once if
      `serial`; the code only looks at a flag that the run itself sets later. */
  predicate Enabled(s: State, e: Event, serial: bool) {
    match e
    case Begin(r, found) => r !in s.active && (serial ==> s.active == map[]) && (found.Some? ==> Tagged(s, found.value))
    case Step(r, result, suffix) =>
      && r in s.active
      && (result != Refused && NameOf(s.active[r], suffix).Some? ==> !Taken(s, NameOf(s.active[r], suffix).value))
      && (s.active[r].Trust? && result != Refused ==>
        s.active[r].info.dist.Some? && s.active[r].info.dist.value in s.dists)
    case Disabled => true
    case Crashed => true
  }

  function Or(a: Option<nat>, b: Option<nat>): Option<nat> {
    if a.Some? then a else b
  }

  /** Empty fields keep their stored values. */
  function Merged(was: Info, info: Info): Info {
    Info(Or(info.dist, was.dist), Or(info.domain, was.domain), Or(info.keyPair, was.keyPair),
         Or(info.keyGroup, was.keyGroup), Or(info.oac, was.oac), Or(info.cache, was.cache))
  }

  /** Save, refused without a domain, a key-pair ID or a key. */
  function Saved(was: Stored, info: Info, key: Option<nat>): Option<Stored> {
    var merged, k := Merged(was.info, info), Or(key, was.key);
    if merged.domain.None? || merged.keyPair.None? || k.None? then None else Some(Stored(true, merged, k))
  }

  /** What a step that works does to the account and the configuration. */
  function Effect(s: State, p: Phase, suffix: nat): State
    requires p.Trust? ==> p.info.dist.Some? && p.info.dist.value in s.dists
  {
    var claimed := if NameOf(p, suffix).Some? then {NameOf(p, suffix).value} else {};
    var n := s.(next := s.next + 1, names := s.names + claimed);
    match p
    case PublicKey(pair, _) => n.(pubs := s.pubs[s.next := pair])
    case Group(_, _, pub) => n.(groups := s.groups[s.next := pub])
    case Create(_, _, _, group, _) => n.(dists := s.dists[s.next := Dist(false, group)])
    case Tag(info, _) =>
      if info.dist.Some? && info.dist.value in s.dists then
        n.(dists := s.dists[info.dist.value := s.dists[info.dist.value].(tagged := true)])
      else n
    case NewKey(_, pair) => n.(pubs := s.pubs[s.next := pair])
    case NewGroup(_, _, pub) => n.(groups := s.groups[s.next := pub])
    case Trust(info, _, _, group) => n.(dists := s.dists[info.dist.value := s.dists[info.dist.value].(trusts := group)])
    case Persist(info, key) =>
      (match Saved(s.stored, info, key)
       case None => n
       case Some(stored) => n.(stored := stored))
    case _ => n
  }

  function Found(d: nat): Info {
    NOTHING.(dist := Some(d), domain := Some(d))
  }

  /** What the run does after the step; identifiers it made are named s.next. */
  function After(s: State, p: Phase): Option<Phase> {
    match p
    case Oac(pair) => Some(PublicKey(pair, s.next))
    case PublicKey(pair, oac) => Some(Group(pair, oac, s.next))
    case Group(pair, oac, pub) => Some(Cache(pair, oac, pub, s.next))
    case Cache(pair, oac, pub, group) => Some(Create(pair, oac, pub, group, s.next))
    case Create(pair, oac, pub, group, cache) =>
      Some(Tag(Info(Some(s.next), Some(s.next), Some(pub), Some(group), Some(oac), Some(cache)), pair))
    case Tag(info, pair) => Some(Policy(info, pair))
    case Check(info) => Some(if s.stored.key.Some? then Persist(info, None) else NewKey(info, s.next))
    case NewKey(info, pair) => Some(NewGroup(info, pair, s.next))
    case NewGroup(info, pair, pub) => Some(Trust(info, pair, pub, s.next))
    case Trust(info, pair, pub, group) => Some(Policy(info.(keyPair := Some(pub), keyGroup := Some(group)), pair))
    case Policy(info, pair) => Some(Persist(info, Some(pair)))
    case Persist(_, _) => None
  }

  function Apply(s: State, e: Event): State
    requires Enabled(s, e, false)
  {
    match e
    case Begin(r, found) =>
      s.(next := s.next + 1, active := s.active[r := if found.Some? then Check(Found(found.value)) else Oac(s.next)])
    case Step(r, result, suffix) =>
      var p := s.active[r];
      if result == Refused then s.(active := s.active - {r})
      else
        var n := Effect(s, p, suffix);
        if result == Done && After(s, p).Some? then n.(active := s.active[r := After(s, p).value])
        else n.(active := s.active - {r})
    case Disabled => s.(stored := s.stored.(enabled := false))
    case Crashed => s.(active := map[])
  }

  ghost predicate Run(s: State, es: seq<Event>, serial: bool)
    decreases |es|
  {
    es == [] || (Enabled(s, es[0], serial) && Run(Apply(s, es[0]), es[1..], serial))
  }

  function Final(s: State, es: seq<Event>, serial: bool): State
    requires Run(s, es, serial)
    decreases |es|
  {
    if es == [] then s else Final(Apply(s, es[0]), es[1..], serial)
  }

  // ---- The invariant -----------------------------------------------------------------------

  /** The key group and key-pair ID are those the distribution trusts, and the
      public key is of this pair. */
  predicate Trusts(s: State, info: Info, pair: nat) {
    && info.dist.Some? && info.domain.Some? && info.keyPair.Some? && info.dist.value in s.dists
    && info.keyGroup == Some(s.dists[info.dist.value].trusts)
    && InGroup(s, info.keyGroup.value, info.keyPair.value, pair)
  }

  predicate InGroup(s: State, group: nat, pub: nat, pair: nat) {
    group in s.groups && s.groups[group] == pub && OfPair(s, pub, pair)
  }

  predicate OfPair(s: State, pub: nat, pair: nat) {
    pub in s.pubs && s.pubs[pub] == pair
  }

  /** The stored key-pair ID and private key are of one pair, and the managed
      distribution trusts it. */
  predicate KeyUsable(s: State) {
    s.stored.key.Some? ==> Names(s, s.stored.info) && Trusts(s, s.stored.info, s.stored.key.value)
  }

  predicate EnabledComplete(s: State) {
    s.stored.enabled ==> s.stored.info.domain.Some? && s.stored.info.keyPair.Some? && s.stored.key.Some?
  }

  predicate NoneTagged(s: State) {
    forall d :: d in s.dists ==> !s.dists[d].tagged
  }

  predicate OneTagged(s: State) {
    forall d, e :: d in s.dists && e in s.dists && s.dists[d].tagged && s.dists[e].tagged ==> d == e
  }

  /** A run's information names the managed distribution. */
  predicate Names(s: State, info: Info) {
    info.dist.Some? && info.domain.Some? && Tagged(s, info.dist.value)
  }

  predicate PhaseOk(s: State, p: Phase) {
    match p
    case Oac(_) => true
    case PublicKey(_, _) => BaseOac in s.names
    case Group(pair, _, pub) => NoneTagged(s) && BaseKey in s.names && OfPair(s, pub, pair)
    case Cache(pair, _, pub, group) =>
      NoneTagged(s) && BaseKey in s.names && BaseGroup in s.names && InGroup(s, group, pub, pair)
    case Create(pair, _, pub, group, _) => NoneTagged(s) && BaseKey in s.names && InGroup(s, group, pub, pair)
    case Tag(info, pair) => NoneTagged(s) && BaseKey in s.names && Trusts(s, info, pair)
    case Check(info) => Names(s, info) && info.keyPair.None? && info.keyGroup.None?
    case NewKey(info, _) => Names(s, info) && s.stored.key.None?
    case NewGroup(info, pair, pub) => Names(s, info) && s.stored.key.None? && OfPair(s, pub, pair)
    case Trust(info, pair, pub, group) => Names(s, info) && s.stored.key.None? && InGroup(s, group, pub, pair)
    case Policy(info, pair) => Names(s, info) && Trusts(s, info, pair) && s.stored.key.None?
    case Persist(info, Some(pair)) => Names(s, info) && Trusts(s, info, pair) && s.stored.key.None?
    case Persist(info, None) => Names(s, info) && info.keyPair.None? && info.keyGroup.None? && s.stored.key.Some?
  }

  ghost predicate Bounded(s: State) {
    && (forall d :: d in s.dists ==> d < s.next)
    && (forall g :: g in s.groups ==> g < s.next)
    && (forall p :: p in s.pubs ==> p < s.next)
  }

  /** The account and the configuration, apart from the runs. */
  ghost predicate Sound(s: State) {
    && KeyUsable(s) && EnabledComplete(s) && OneTagged(s) && Bounded(s)
    && (NoneTagged(s) || BaseKey in s.names)
    && (BaseCache in s.names ==> BaseGroup in s.names) && (BaseGroup in s.names ==> BaseKey in s.names)
    && (BaseKey in s.names ==> BaseOac in s.names)
  }

  ghost predicate Core(s: State) {
    && Sound(s)
    && (forall r, q :: r in s.active && q in s.active ==> r == q)
    && (forall r {:trigger s.active[r]} :: r in s.active ==> PhaseOk(s, s.active[r]))
  }

  predicate CanWork(s: State, p: Phase, suffix: nat) {
    && (NameOf(p, suffix).Some? ==> !Taken(s, NameOf(p, suffix).value))
    && (p.Trust? ==> p.info.dist.Some? && p.info.dist.value in s.dists)
  }

  /** A fresh run between claiming the key's name and tagging its distribution. */
  predicate Past(p: Phase) {
    p.Group? || p.Cache? || p.Create? || p.Tag?
  }

  /** A step of a fresh run up to its tags. */
  predicate Creates(p: Phase) {
    p.Oac? || p.PublicKey? || Past(p)
  }

  /** Creating does not touch the stored configuration. */
  lemma CreatingKeeps(s: State, p: Phase, suffix: nat)
    requires Sound(s) && PhaseOk(s, p) && CanWork(s, p, suffix)
    requires Creates(p)
    ensures Sound(Effect(s, p, suffix))
    ensures After(s, p).Some? ==> PhaseOk(Effect(s, p, suffix), After(s, p).value)
  {
    hide Saved;
  }

  lemma ReusingKeeps(s: State, p: Phase, suffix: nat)
    requires Sound(s) && PhaseOk(s, p) && CanWork(s, p, suffix)
    requires !Creates(p)
    ensures Sound(Effect(s, p, suffix))
    ensures After(s, p).Some? ==> PhaseOk(Effect(s, p, suffix), After(s, p).value)
  {
  }

  lemma EffectKeeps(s: State, p: Phase, suffix: nat)
    requires Sound(s) && PhaseOk(s, p) && CanWork(s, p, suffix)
    ensures Sound(Effect(s, p, suffix))
    ensures After(s, p).Some? ==> PhaseOk(Effect(s, p, suffix), After(s, p).value)
  {
    hide Sound, PhaseOk, Effect, After;
    if Creates(p) {
      CreatingKeeps(s, p, suffix);
    } else {
      ReusingKeeps(s, p, suffix);
    }
  }

  /** A stored key and its ID never change. */
  predicate KeyKept(s: State, n: State) {
    s.stored.key.Some? ==> n.stored.key == s.stored.key && n.stored.info.keyPair == s.stored.info.keyPair
  }

  lemma EffectKeepsKey(s: State, p: Phase, suffix: nat)
    requires PhaseOk(s, p) && CanWork(s, p, suffix)
    ensures KeyKept(s, Effect(s, p, suffix))
  {
  }

  /** Neither depends on which runs are active. */
  lemma ApartFromRuns(s: State, active: map<nat, Phase>, p: Phase)
    ensures Sound(s.(active := active)) <==> Sound(s)
    ensures PhaseOk(s.(active := active), p) <==> PhaseOk(s, p)
  {
  }

  lemma StepForm(s: State, e: Event)
    requires Enabled(s, e, false) && e.Step?
    ensures var p := s.active[e.r];
      if e.result == Refused then Apply(s, e) == s.(active := s.active - {e.r})
      else CanWork(s, p, e.suffix) && Apply(s, e) == Effect(s, p, e.suffix).(active :=
        if e.result == Done && After(s, p).Some? then s.active[e.r := After(s, p).value] else s.active - {e.r})
  {
    hide Effect, After;
  }

  lemma StepOfRun(s: State, e: Event)
    requires Core(s) && Enabled(s, e, true) && e.Step?
    ensures Core(Apply(s, e)) && KeyKept(s, Apply(s, e))
  {
    WithoutSerial(s, e, true);
    StepForm(s, e);
    var p := s.active[e.r];
    assert PhaseOk(s, p);
    hide PhaseOk, Sound, Effect, After, Apply, CanWork;
    if e.result == Refused {
      ApartFromRuns(s, s.active - {e.r}, p);
    } else {
      EffectKeeps(s, p, e.suffix);
      EffectKeepsKey(s, p, e.suffix);
      var n := Effect(s, p, e.suffix);
      ApartFromRuns(n, Apply(s, e).active, if After(s, p).Some? then After(s, p).value else p);
    }
  }

  lemma StepKeeps(s: State, e: Event)
    requires Core(s) && Enabled(s, e, true)
    ensures Core(Apply(s, e)) && KeyKept(s, Apply(s, e))
  {
    if e.Step? {
      hide Core, KeyKept, Apply, Enabled;
      StepOfRun(s, e);
    } else {
      hide Effect, After, NameOf;
    }
  }

  // ---- Whole runs ------------------------------------------------------------------------------

  lemma WithoutSerial(s: State, e: Event, serial: bool)
    ensures Enabled(s, e, serial) ==> Enabled(s, e, false)
  {
  }

  lemma {:induction false} RunKeeps(s: State, es: seq<Event>)
    requires Core(s) && Run(s, es, true)
    ensures Core(Final(s, es, true)) && KeyKept(s, Final(s, es, true))
    decreases |es|
  {
    hide Core, Apply, Enabled;
    if es != [] {
      WithoutSerial(s, es[0], true);
      StepKeeps(s, es[0]);
      RunKeeps(Apply(s, es[0]), es[1..]);
    }
  }

  ghost predicate Reaches(s: State, n: State, serial: bool) {
    exists es :: Run(s, es, serial) && Final(s, es, serial) == n
  }

  /** From an empty account with the same rule for names. */
  ghost predicate Reachable(s: State, serial: bool) {
    Reaches(START.(strict := s.strict), s, serial)
  }

  lemma ReachableCore(s: State, n: State)
    requires Reachable(s, true) && Reaches(s, n, true)
    ensures Core(s) && Core(n) && KeyKept(s, n)
  {
    hide Apply, Enabled;
    var start := START.(strict := s.strict);
    var es :| Run(start, es, true) && Final(start, es, true) == s;
    RunKeeps(start, es);
    var more :| Run(s, more, true) && Final(s, more, true) == n;
    RunKeeps(s, more);
  }

  /** Whatever steps fail in whatever runs, one after the other: the stored key
      and key-pair ID are of one pair that the one managed distribution trusts,
      and enabled means that domain, ID and key are there. Lookups need not be
      reliable, since a second distribution would need the names of the first. */
  lemma Custody(s: State, n: State)
    requires Reachable(s, true) && Reaches(s, n, true)
    ensures KeyUsable(s) && EnabledComplete(s) && OneTagged(s)
    ensures KeyKept(s, n)
  {
    ReachableCore(s, n);
  }

  // ---- The stored identifiers ---------------------------------------------------------------------

  /** What a run has found or made so far. */
  function InfoOf(p: Phase): Info {
    match p
    case Tag(info, _) => info
    case Check(info) => info
    case NewKey(info, _) => info
    case NewGroup(info, _, _) => info
    case Trust(info, _, _, _) => info
    case Policy(info, _) => info
    case Persist(info, _) => info
    case _ => NOTHING
  }

  /** No identifier is lost. */
  predicate StillThere(was: Info, info: Info) {
    && (was.dist.Some? ==> info.dist.Some?) && (was.domain.Some? ==> info.domain.Some?)
    && (was.keyPair.Some? ==> info.keyPair.Some?) && (was.keyGroup.Some? ==> info.keyGroup.Some?)
    && (was.oac.Some? ==> info.oac.Some?) && (was.cache.Some? ==> info.cache.Some?)
  }

  /** The domain is that of the distribution. */
  predicate DomainFits(info: Info) {
    info.domain == info.dist
  }

  ghost predicate DomainsFit(s: State) {
    DomainFits(s.stored.info) && forall r {:trigger s.active[r]} :: r in s.active ==> DomainFits(InfoOf(s.active[r]))
  }

  /** The run has found its distribution, and knows of no access control or cache policy. */
  predicate Reuses(p: Phase) {
    InfoOf(p).dist.Some? && InfoOf(p).oac.None? && InfoOf(p).cache.None?
  }

  lemma EffectOnInfo(s: State, p: Phase, suffix: nat)
    requires CanWork(s, p, suffix)
    ensures var n := Effect(s, p, suffix);
      && StillThere(s.stored.info, n.stored.info)
      && (DomainFits(s.stored.info) && DomainFits(InfoOf(p)) ==>
            DomainFits(n.stored.info) && (After(s, p).Some? ==> DomainFits(InfoOf(After(s, p).value))))
      && (Reuses(p) ==>
            && n.stored.info.oac == s.stored.info.oac && n.stored.info.cache == s.stored.info.cache
            && (After(s, p).Some? ==> Reuses(After(s, p).value)))
  {
  }

  lemma StepOnInfo(s: State, e: Event, serial: bool)
    requires Enabled(s, e, serial)
    ensures Enabled(s, e, false) && StillThere(s.stored.info, Apply(s, e).stored.info)
    ensures DomainsFit(s) ==> DomainsFit(Apply(s, e))
  {
    WithoutSerial(s, e, serial);
    if e.Step? {
      StepForm(s, e);
      hide Apply, Effect, After, CanWork;
      if e.result != Refused {
        EffectOnInfo(s, s.active[e.r], e.suffix);
      }
    } else {
      hide Effect, After;
    }
  }

  lemma {:induction false} RunOnInfo(s: State, es: seq<Event>, serial: bool)
    requires Run(s, es, serial)
    ensures StillThere(s.stored.info, Final(s, es, serial).stored.info)
    ensures DomainsFit(s) ==> DomainsFit(Final(s, es, serial))
    decreases |es|
  {
    hide Apply, Enabled, DomainsFit;
    if es != [] {
      StepOnInfo(s, es[0], serial);
      RunOnInfo(Apply(s, es[0]), es[1..], serial);
    }
  }

  /** However runs overlap and fail, no stored identifier is ever lost, and the
      stored domain is that of the stored distribution. */
  lemma IdentifiersKept(s: State, n: State, serial: bool)
    requires Reachable(s, serial) && Reaches(s, n, serial)
    ensures var was, info := s.stored.info, n.stored.info;
      && (was.dist.Some? ==> info.dist.Some?) && (was.domain.Some? ==> info.domain.Some?)
      && (was.keyPair.Some? ==> info.keyPair.Some?) && (was.keyGroup.Some? ==> info.keyGroup.Some?)
      && (was.oac.Some? ==> info.oac.Some?) && (was.cache.Some? ==> info.cache.Some?)
    ensures n.stored.info.domain == n.stored.info.dist
  {
    hide Apply, Enabled;
    var start := START.(strict := s.strict);
    assert DomainsFit(start);
    var es :| Run(start, es, serial) && Final(start, es, serial) == s;
    RunOnInfo(start, es, serial);
    var more :| Run(s, more, serial) && Final(s, more, serial) == n;
    RunOnInfo(s, more, serial);
  }

  lemma StepReuses(s: State, e: Event, serial: bool)
    requires Enabled(s, e, serial) && (e.Begin? ==> e.found.Some?)
    requires forall r {:trigger s.active[r]} :: r in s.active ==> Reuses(s.active[r])
    ensures Enabled(s, e, false)
    ensures var n := Apply(s, e);
      && n.stored.info.oac == s.stored.info.oac && n.stored.info.cache == s.stored.info.cache
      && forall r {:trigger n.active[r]} :: r in n.active ==> Reuses(n.active[r])
  {
    WithoutSerial(s, e, serial);
    if e.Step? {
      StepForm(s, e);
      hide Apply, Effect, After, CanWork;
      if e.result != Refused {
        EffectOnInfo(s, s.active[e.r], e.suffix);
      }
    } else {
      hide Effect, After;
    }
  }

  /** Runs that reuse or rotate leave the stored access control and cache policy
      as they were, whatever goes wrong and however they overlap. */
  lemma {:induction false} ReuseKeeps(s: State, es: seq<Event>, serial: bool)
    requires Run(s, es, serial) && forall e :: e in es && e.Begin? ==> e.found.Some?
    requires forall r {:trigger s.active[r]} :: r in s.active ==> Reuses(s.active[r])
    ensures var n := Final(s, es, serial);
      n.stored.info.oac == s.stored.info.oac && n.stored.info.cache == s.stored.info.cache
    decreases |es|
  {
    hide Apply, Enabled, Reuses;
    if es != [] {
      assert es[0] in es && forall e :: e in es[1..] ==> e in es;
      StepReuses(s, es[0], serial);
      ReuseKeeps(Apply(s, es[0]), es[1..], serial);
    }
  }

  // ---- Recovery ---------------------------------------------------------------------------------

  /** Restores through the distribution can be signed. */
  predicate Usable(s: State) {
    s.stored.enabled && s.stored.key.Some?
  }

  /** Steps left at most. */
  function Left(p: Phase): nat {
    match p
    case Oac(_) => 8
    case PublicKey(_, _) => 7
    case Group(_, _, _) => 6
    case Cache(_, _, _, _) => 5
    case Create(_, _, _, _, _) => 4
    case Tag(_, _) => 3
    case Check(_) => 6
    case NewKey(_, _) => 5
    case NewGroup(_, _, _) => 4
    case Trust(_, _, _, _) => 3
    case Policy(_, _) => 2
    case Persist(_, _) => 1
  }

  /** The rest of a run in which nothing goes wrong except that taken names are
      refused; a rotation takes its own moment as suffix. */
  function Undisturbed(s: State, r: nat, suffix: nat): State
    requires r in s.active
    decreases Left(s.active[r])
  {
    var p := s.active[r];
    if !CanWork(s, p, suffix) then s.(active := s.active - {r})
    else if After(s, p).None? then Effect(s, p, suffix).(active := s.active - {r})
    else Undisturbed(Effect(s, p, suffix).(active := s.active[r := After(s, p).value]), r, suffix)
  }

  /** A run started when no other is active, with a lookup that finds what is there. */
  function Provision(s: State, r: nat, found: Option<nat>, suffix: nat): State
    requires s.active == map[] && (found.Some? ==> Tagged(s, found.value))
  {
    Undisturbed(Apply(s, Begin(r, found)), r, suffix)
  }

  /** The names a run needs later are free, except perhaps the fixed ones up to
      that of the key. */
  predicate NamesFree(s: State, p: Phase, suffix: nat) {
    && (p.Check? || p.NewKey? ==> RotatedKey(suffix) !in s.names)
    && (p.Check? || p.NewKey? || p.NewGroup? ==> RotatedGroup(suffix) !in s.names)
    && (p.Group? ==> BaseGroup !in s.names)
    && (p.Cache? ==> BaseCache !in s.names)
  }

  /** Whether a run that has come this far is refused a fixed name. */
  predicate Blocked(s: State, p: Phase) {
    (p.Oac? && Taken(s, BaseOac)) || ((p.Oac? || p.PublicKey?) && BaseKey in s.names)
  }

  lemma NextStep(s: State, p: Phase, suffix: nat)
    requires Sound(s) && PhaseOk(s, p) && NamesFree(s, p, suffix)
    ensures CanWork(s, p, suffix) <==> !(p.PublicKey? && BaseKey in s.names) && !(p.Oac? && Taken(s, BaseOac))
    ensures CanWork(s, p, suffix) && After(s, p).Some? ==>
      NamesFree(Effect(s, p, suffix), After(s, p).value, suffix)
      && (Blocked(Effect(s, p, suffix), After(s, p).value) <==> Blocked(s, p))
      && Left(After(s, p).value) < Left(p)
    ensures CanWork(s, p, suffix) ==>
      if p.Persist? then Usable(Effect(s, p, suffix)) && After(s, p).None?
      else After(s, p).Some? && Effect(s, p, suffix).stored == s.stored
  {
    if p.Persist? {
      PersistUsable(s, p, suffix);
    } else if CanWork(s, p, suffix) {
      NamesStayFree(s, p, suffix);
      hide KeyUsable, Bounded, OneTagged, EnabledComplete, Names, Trusts, NamesFree;
    }
  }

  lemma NamesStayFree(s: State, p: Phase, suffix: nat)
    requires Sound(s) && NamesFree(s, p, suffix) && CanWork(s, p, suffix) && After(s, p).Some?
    ensures NamesFree(Effect(s, p, suffix), After(s, p).value, suffix)
  {
    hide KeyUsable, Bounded, OneTagged, EnabledComplete;
  }

  lemma PersistUsable(s: State, p: Phase, suffix: nat)
    requires Sound(s) && PhaseOk(s, p) && p.Persist?
    ensures Usable(Effect(s, p, suffix))
  {
  }

  /** The way an undisturbed run ends depends on the names alone. */
  lemma {:induction false} RunEnds(s: State, r: nat, suffix: nat)
    requires Sound(s) && r in s.active && PhaseOk(s, s.active[r]) && NamesFree(s, s.active[r], suffix)
    ensures Usable(Undisturbed(s, r, suffix)) <==> !Blocked(s, s.active[r]) || Usable(s)
    decreases Left(s.active[r])
  {
    hide Sound, PhaseOk, After, Effect, Left;
    var p := s.active[r];
    NextStep(s, p, suffix);
    if CanWork(s, p, suffix) {
      EffectKeeps(s, p, suffix);
      if After(s, p).Some? {
        var n, q := Effect(s, p, suffix).(active := s.active[r := After(s, p).value]), After(s, p).value;
        ApartFromRuns(Effect(s, p, suffix), s.active[r := q], q);
        RunEnds(n, r, suffix);
      }
    }
  }

  /** No fresh run has come to claim a fixed name that the account keeps unique. */
  predicate NeverTried(s: State) {
    BaseKey !in s.names && !Taken(s, BaseOac)
  }

  /** A run in which nothing goes wrong, except that all names taken before are
      refused, ends with a usable key exactly if it finds a managed distribution
      or no fresh run got as far as its first unique name: that of the access
      control if the account keeps those unique, else that of the key. */
  lemma RecoveryExact(s: State, r: nat, found: Option<nat>, suffix: nat)
    requires Reachable(s, true) && s.active == map[]
    requires if found.Some? then Tagged(s, found.value) else NoneTagged(s)
    requires RotatedKey(suffix) !in s.names && RotatedGroup(suffix) !in s.names
    ensures Usable(Provision(s, r, found, suffix)) <==> found.Some? || NeverTried(s)
  {
    hide Apply, Undisturbed;
    assert Run(s, [], true) && Final(s, [], true) == s;
    ReachableCore(s, s);
    assert found.None? ==> !Usable(s);
    BeginsSound(s, r, found);
    RunEnds(Apply(s, Begin(r, found)), r, suffix);
  }

  lemma BeginsSound(s: State, r: nat, found: Option<nat>)
    requires Core(s) && s.active == map[] && (found.Some? ==> Tagged(s, found.value))
    ensures var n := Apply(s, Begin(r, found));
      Sound(n) && r in n.active && PhaseOk(n, n.active[r]) && n.names == s.names && n.stored == s.stored
        && n.strict == s.strict
      && n.active[r] == if found.Some? then Check(Found(found.value)) else Oac(s.next)
  {
  }

  /** Nothing managed, and a name that every fresh run needs is gone. */
  ghost predicate Stranded(s: State) {
    && NoneTagged(s) && !s.stored.enabled && s.stored.key.None? && !NeverTried(s)
    && forall r :: r in s.active ==> s.active[r].Oac? || (s.active[r].PublicKey? && BaseKey in s.names)
  }

  lemma {:induction false} StaysStranded(s: State, es: seq<Event>, serial: bool)
    requires Stranded(s) && Run(s, es, serial)
    ensures Stranded(Final(s, es, serial))
    decreases |es|
  {
    hide Apply, Enabled, Stranded;
    if es != [] {
      WithoutSerial(s, es[0], serial);
      StrandedStep(s, es[0]);
      StaysStranded(Apply(s, es[0]), es[1..], serial);
    }
  }

  lemma StrandedStep(s: State, e: Event)
    requires Stranded(s) && Enabled(s, e, false)
    ensures Stranded(Apply(s, e))
  {
  }

  /** A fresh run that dies between claiming its first unique name and tagging
      the distribution strands the account: no later run of any kind, with or
      without failures, ever yields a usable key. */
  lemma StrandedForever(s: State, n: State)
    requires Reachable(s, true) && s.active == map[] && NoneTagged(s) && !NeverTried(s)
    requires Reaches(s, n, false)
    ensures !Usable(n)
  {
    hide Apply, Enabled;
    assert Run(s, [], true) && Final(s, [], true) == s;
    ReachableCore(s, s);
    var es :| Run(s, es, false) && Final(s, es, false) == n;
    StaysStranded(s, es, false);
  }

  // ---- Two runs at once ---------------------------------------------------------------------------

  ghost predicate AlwaysUsable(serial: bool) {
    forall s :: Reachable(s, serial) ==> KeyUsable(s)
  }

  /** That runs come one after the other is needed: a run that rotates the key
      while another is past its distribution replaces the trust, and the other
      then stores a key the distribution no longer trusts. */
  lemma SerialExact(serial: bool)
    ensures AlwaysUsable(serial) <==> serial
  {
    hide Apply, Enabled, KeyUsable;
    if serial {
      forall s | Reachable(s, true) ensures KeyUsable(s) {
        assert Run(s, [], true) && Final(s, [], true) == s;
        Custody(s, s);
      }
    } else {
      var s, d, g := FirstRun();
      s := SecondRun(s, d, g);
      s := FirstStores(s, d, g);
    }
  }

  lemma ReachesStep(a: State, s: State, e: Event, serial: bool)
    requires Reaches(a, s, serial) && Enabled(s, e, serial)
    ensures Enabled(s, e, false) && Reaches(a, Apply(s, e), serial)
  {
    hide Apply, Enabled;
    WithoutSerial(s, e, serial);
    var es :| Run(a, es, serial) && Final(a, es, serial) == s;
    RunSnoc(a, es, e, serial);
  }

  lemma {:induction false} RunSnoc(s: State, es: seq<Event>, e: Event, serial: bool)
    requires Run(s, es, serial) && Enabled(Final(s, es, serial), e, serial)
    ensures Enabled(Final(s, es, serial), e, false)
    ensures Run(s, es + [e], serial) && Final(s, es + [e], serial) == Apply(Final(s, es, serial), e)
    decreases |es|
  {
    hide Apply, Enabled;
    WithoutSerial(Final(s, es, serial), e, serial);
    if es == [] {
      var n := Apply(s, e);
      assert Run(n, [], serial) && Final(n, [], serial) == n;
      assert ([] + [e])[0] == e && ([] + [e])[1..] == [];
    } else {
      assert (es + [e])[1..] == es[1..] + [e] && (es + [e])[0] == es[0];
      WithoutSerial(s, es[0], serial);
      RunSnoc(Apply(s, es[0]), es[1..], e, serial);
    }
  }

  /** Such accounts are reached by serial runs, whatever is unique: the first
      fresh run makes its access control and public key, and dies. */
  lemma Strands(strict: bool) returns (s: State)
    ensures Reachable(s, true) && s.strict == strict && s.active == map[] && NoneTagged(s) && !NeverTried(s)
    ensures forall n :: Reaches(s, n, false) ==> !Usable(n)
  {
    var a := START.(strict := strict);
    assert Reaches(a, a, true) by {
      assert Run(a, [], true) && Final(a, [], true) == a;
    }
    hide Reaches;
    s := a;
    var es := [Begin(0, None), Step(0, Done, 0), Step(0, Done, 0), Crashed];
    ReachesStep(a, s, es[0], true);
    s := Apply(s, es[0]);
    ReachesStep(a, s, es[1], true);
    s := Apply(s, es[1]);
    ReachesStep(a, s, es[2], true);
    s := Apply(s, es[2]);
    ReachesStep(a, s, es[3], true);
    s := Apply(s, es[3]);
    forall n | Reaches(s, n, false) ensures !Usable(n) {
      StrandedForever(s, n);
    }
  }

  /** One step of a run that works. */
  lemma Works(s: State, r: nat) returns (n: State)
    requires Reaches(START, s, false) && r in s.active && CanWork(s, s.active[r], 0)
    ensures Reaches(START, n, false)
    ensures n == Effect(s, s.active[r], 0).(active :=
      if After(s, s.active[r]).Some? then s.active[r := After(s, s.active[r]).value] else s.active - {r})
  {
    hide Reaches, Effect, After;
    ReachesStep(START, s, Step(r, Done, 0), false);
    n := Apply(s, Step(r, Done, 0));
  }

  ghost predicate Halfway(s: State, d: nat, g: nat) {
    && Reaches(START, s, false) && d in s.dists && s.dists[d].tagged && s.stored.key.None? && g < s.next && !s.strict
    && 0 in s.active && s.active[0].Policy? && s.active[0].info.dist == Some(d) && s.active[0].info.keyGroup == Some(g)
    && s.active[0].info.domain.Some? && s.active[0].info.keyPair.Some?
  }

  /** The first three steps of a fresh run. */
  lemma FirstKey() returns (s: State)
    ensures Reaches(START, s, false) && s.active.Keys == {0} && s.active[0].Cache? && s.active[0].group < s.next
    ensures s.stored == START.stored && s.names == {BaseOac, BaseKey, BaseGroup} && !s.strict
  {
    assert Reaches(START, START, false) by {
      assert Run(START, [], false) && Final(START, [], false) == START;
    }
    hide Reaches;
    ReachesStep(START, START, Begin(0, None), false);
    s := Apply(START, Begin(0, None));
    s := Works(s, 0);
    s := Works(s, 0);
    s := Works(s, 0);
  }

  lemma FirstRun() returns (s: State, d: nat, g: nat)
    ensures Halfway(s, d, g) && 1 !in s.active && RotatedKey(0) !in s.names && RotatedGroup(0) !in s.names
  {
    hide Reaches;
    s := FirstKey();
    g := s.active[0].group;
    s := Works(s, 0);
    s := Works(s, 0);
    d := s.active[0].info.dist.value;
    s := Works(s, 0);
  }

  lemma SecondRun(s: State, d: nat, g: nat) returns (n: State)
    requires Halfway(s, d, g) && 1 !in s.active && RotatedKey(0) !in s.names && RotatedGroup(0) !in s.names
    ensures Halfway(n, d, g) && n.dists[d].trusts != g
  {
    hide Reaches;
    ReachesStep(START, s, Begin(1, Some(d)), false);
    n := Apply(s, Begin(1, Some(d)));
    n := Works(n, 1);
    n := Works(n, 1);
    n := Works(n, 1);
    n := Works(n, 1);
  }

  lemma FirstStores(s: State, d: nat, g: nat) returns (n: State)
    requires Halfway(s, d, g) && s.dists[d].trusts != g
    ensures Reachable(n, false) && !KeyUsable(n)
  {
    hide Reaches;
    n := Works(s, 0);
    n := Works(n, 0);
  }

  // ---- What overlapping runs can and cannot break ---------------------------------------------------

  predicate OwnKey(s: State, info: Info, pair: nat) {
    info.keyPair.Some? && info.keyGroup.Some? && InGroup(s, info.keyGroup.value, info.keyPair.value, pair)
  }

  predicate WeakPhase(s: State, p: Phase) {
    && (Past(p) ==> NoneTagged(s) && BaseKey in s.names)
    && match p
       case Oac(_) => true
       case PublicKey(_, _) => true
       case Group(pair, _, pub) => OfPair(s, pub, pair)
       case Cache(pair, _, pub, group) => InGroup(s, group, pub, pair)
       case Create(pair, _, pub, group, _) => InGroup(s, group, pub, pair)
       case Tag(info, pair) => Trusts(s, info, pair)
       case Check(info) => Names(s, info) && info.keyPair.None? && info.keyGroup.None?
       case NewKey(info, _) => Names(s, info)
       case NewGroup(info, pair, pub) => Names(s, info) && OfPair(s, pub, pair)
       case Trust(info, pair, pub, group) => Names(s, info) && InGroup(s, group, pub, pair)
       case Policy(info, pair) => Names(s, info) && OwnKey(s, info, pair)
       case Persist(info, Some(pair)) => Names(s, info) && OwnKey(s, info, pair)
       case Persist(info, None) => Names(s, info) && info.keyPair.None? && info.keyGroup.None? && s.stored.key.Some?
  }

  /** What holds of the account and the configuration whatever runs overlap: one
      managed distribution, and a stored ID and key of one pair. */
  ghost predicate WeakSound(s: State) {
    && OneTagged(s) && Bounded(s) && EnabledComplete(s) && (NoneTagged(s) || BaseKey in s.names)
    && (s.stored.key.Some? ==> Names(s, s.stored.info) && OwnKey(s, s.stored.info, s.stored.key.value))
  }

  ghost predicate Weak(s: State) {
    && WeakSound(s)
    && (forall r {:trigger s.active[r]} :: r in s.active ==> WeakPhase(s, s.active[r]))
    && (forall r, q {:trigger s.active[r], s.active[q]} ::
          r in s.active && q in s.active && Past(s.active[r]) && Past(s.active[q]) ==> r == q)
  }

  lemma CreatingWeak(s: State, p: Phase, suffix: nat)
    requires WeakSound(s) && WeakPhase(s, p) && CanWork(s, p, suffix) && Creates(p)
    ensures WeakSound(Effect(s, p, suffix))
    ensures After(s, p).Some? ==> WeakPhase(Effect(s, p, suffix), After(s, p).value)
  {
    hide Saved;
  }

  lemma ReusingWeak(s: State, p: Phase, suffix: nat)
    requires WeakSound(s) && WeakPhase(s, p) && CanWork(s, p, suffix) && !Creates(p)
    ensures WeakSound(Effect(s, p, suffix))
    ensures After(s, p).Some? ==> WeakPhase(Effect(s, p, suffix), After(s, p).value)
  {
    if p.Persist? {
      PersistWeak(s, p, suffix);
    } else {
      hide Saved;
    }
  }

  lemma PersistWeak(s: State, p: Phase, suffix: nat)
    requires WeakSound(s) && WeakPhase(s, p) && p.Persist?
    ensures WeakSound(Effect(s, p, suffix))
  {
  }

  lemma EffectWeak(s: State, p: Phase, suffix: nat)
    requires WeakSound(s) && WeakPhase(s, p) && CanWork(s, p, suffix)
    ensures WeakSound(Effect(s, p, suffix))
    ensures After(s, p).Some? ==> WeakPhase(Effect(s, p, suffix), After(s, p).value)
  {
    hide WeakSound, WeakPhase, Effect, After, CanWork;
    if Creates(p) {
      CreatingWeak(s, p, suffix);
    } else {
      ReusingWeak(s, p, suffix);
    }
  }

  /** The step of one run leaves what another relies on. */
  lemma OtherRunKept(s: State, p: Phase, suffix: nat, q: Phase)
    requires WeakSound(s) && WeakPhase(s, p) && CanWork(s, p, suffix) && WeakPhase(s, q)
    requires !(Past(p) && Past(q))
    ensures WeakPhase(Effect(s, p, suffix), q)
    ensures Past(q) && After(s, p).Some? ==> !Past(After(s, p).value)
  {
  }

  lemma WeakApart(s: State, active: map<nat, Phase>, p: Phase)
    ensures WeakSound(s.(active := active)) <==> WeakSound(s)
    ensures WeakPhase(s.(active := active), p) <==> WeakPhase(s, p)
  {
  }

  lemma StepWeak(s: State, e: Event)
    requires Weak(s) && Enabled(s, e, false) && e.Step?
    ensures Weak(Apply(s, e))
  {
    StepForm(s, e);
    var p := s.active[e.r];
    assert WeakPhase(s, p);
    hide WeakPhase, WeakSound, Effect, After, Apply, CanWork, Past;
    var n := Apply(s, e);
    if e.result == Refused {
      WeakApart(s, n.active, p);
      forall q | q in n.active ensures WeakPhase(n, n.active[q]) {
        WeakApart(s, n.active, s.active[q]);
      }
    } else {
      var m := Effect(s, p, e.suffix);
      EffectWeak(s, p, e.suffix);
      WeakApart(m, n.active, p);
      forall q | q in n.active ensures WeakPhase(n, n.active[q]) {
        WeakApart(m, n.active, n.active[q]);
        if q != e.r {
          OtherRunKept(s, p, e.suffix, s.active[q]);
        }
      }
      PastAfter(s, e);
    }
  }

  /** At most one run is past claiming the key's name. */
  lemma PastAfter(s: State, e: Event)
    requires Weak(s) && Enabled(s, e, false) && e.Step? && e.result != Refused
    ensures var n := Apply(s, e);
      forall r, q {:trigger n.active[r], n.active[q]} ::
        r in n.active && q in n.active && Past(n.active[r]) && Past(n.active[q]) ==> r == q
  {
    StepForm(s, e);
    var p, n := s.active[e.r], Apply(s, e);
    assert WeakPhase(s, p);
    hide Apply, Effect, CanWork, WeakSound, WeakPhase;
    forall q | q in n.active && q != e.r && Past(n.active[q]) && e.r in n.active ensures !Past(n.active[e.r]) {
      assert WeakPhase(s, s.active[q]);
      KeyNameTaken(s, p, e.suffix, s.active[q]);
    }
  }

  lemma KeyNameTaken(s: State, p: Phase, suffix: nat, q: Phase)
    requires CanWork(s, p, suffix) && WeakPhase(s, q) && Past(q) && After(s, p).Some? && !Past(p)
    ensures !Past(After(s, p).value)
  {
  }

  lemma RestWeak(s: State, e: Event)
    requires Weak(s) && Enabled(s, e, false) && !e.Step?
    ensures Weak(Apply(s, e))
  {
    hide Effect, After, NameOf;
  }

  lemma {:induction false} RunWeak(s: State, es: seq<Event>)
    requires Weak(s) && Run(s, es, false)
    ensures Weak(Final(s, es, false))
    decreases |es|
  {
    hide Weak, Apply, Enabled;
    if es != [] {
      if es[0].Step? {
        StepWeak(s, es[0]);
      } else {
        RestWeak(s, es[0]);
      }
      RunWeak(Apply(s, es[0]), es[1..]);
    }
  }

  lemma ReachableWeak(s: State)
    requires Reachable(s, false)
    ensures Weak(s)
  {
    hide Apply, Enabled;
    var start := START.(strict := s.strict);
    var es :| Run(start, es, false) && Final(start, es, false) == s;
    RunWeak(start, es);
  }

  /** However runs overlap and fail, there is at most one managed distribution,
      and a stored key-pair ID is that of the stored private key's own pair. */
  lemma PairForever(s: State)
    requires Reachable(s, false)
    ensures OneTagged(s) && EnabledComplete(s)
    ensures s.stored.key.Some? ==> Names(s, s.stored.info) && OwnKey(s, s.stored.info, s.stored.key.value)
  {
    ReachableWeak(s);
  }

  /** The managed distribution's trusted key group. */
  function TrustedGroup(s: State, info: Info): Option<nat> {
    if info.dist.Some? && info.dist.value in s.dists then Some(s.dists[info.dist.value].trusts) else None
  }

  /** A run that will trust or store another key group than the trusted one. */
  predicate Threatens(s: State, p: Phase) {
    match p
    case NewKey(_, _) => true
    case NewGroup(_, _, _) => true
    case Trust(info, _, _, group) => Some(group) != TrustedGroup(s, info)
    case Policy(info, _) => info.keyGroup != TrustedGroup(s, info)
    case Persist(info, Some(_)) => info.keyGroup != TrustedGroup(s, info)
    case _ => false
  }

  ghost predicate AtRisk(s: State) {
    exists r :: r in s.active && Threatens(s, s.active[r])
  }

  /** The stored key is usable and no run in progress threatens it. */
  ghost predicate Calm(s: State) {
    && WeakSound(s) && s.stored.key.Some? && KeyUsable(s)
    && forall r {:trigger s.active[r]} :: r in s.active ==> WeakPhase(s, s.active[r]) && !Threatens(s, s.active[r])
  }

  lemma EffectCalm(s: State, p: Phase, suffix: nat)
    requires WeakSound(s) && s.stored.key.Some? && KeyUsable(s) && WeakPhase(s, p) && !Threatens(s, p)
      && CanWork(s, p, suffix)
    ensures var n := Effect(s, p, suffix);
      && n.stored.key.Some? && KeyUsable(n)
      && (After(s, p).Some? ==> !Threatens(n, After(s, p).value))
  {
  }

  lemma OtherCalm(s: State, p: Phase, suffix: nat, q: Phase)
    requires WeakSound(s) && s.stored.key.Some? && KeyUsable(s) && WeakPhase(s, p) && !Threatens(s, p)
      && CanWork(s, p, suffix)
    requires WeakPhase(s, q) && !Threatens(s, q)
    ensures !Threatens(Effect(s, p, suffix), q)
  {
  }

  lemma CalmApart(s: State, active: map<nat, Phase>, p: Phase)
    ensures KeyUsable(s.(active := active)) <==> KeyUsable(s)
    ensures Threatens(s.(active := active), p) <==> Threatens(s, p)
  {
  }

  lemma StepCalm(s: State, e: Event)
    requires Weak(s) && Calm(s) && Enabled(s, e, false)
    ensures Weak(Apply(s, e)) && Calm(Apply(s, e))
  {
    if e.Step? {
      StepWeak(s, e);
      StepForm(s, e);
      var p, n := s.active[e.r], Apply(s, e);
      assert WeakPhase(s, p) && !Threatens(s, p);
      var m := if e.result == Refused then s else Effect(s, p, e.suffix);
      hide WeakPhase, WeakSound, Effect, After, Apply, CanWork, Past, Threatens, KeyUsable;
      CalmApart(m, n.active, p);
      if e.result != Refused {
        EffectCalm(s, p, e.suffix);
      }
      forall q | q in n.active ensures !Threatens(n, n.active[q]) {
        CalmApart(m, n.active, n.active[q]);
        if q != e.r && e.result != Refused {
          OtherCalm(s, p, e.suffix, s.active[q]);
        }
      }
    } else {
      RestWeak(s, e);
      hide Effect, After, NameOf;
    }
  }

  lemma {:induction false} RunCalm(s: State, es: seq<Event>)
    requires Weak(s) && Calm(s) && Run(s, es, false)
    ensures KeyUsable(Final(s, es, false))
    decreases |es|
  {
    if es != [] {
      hide Weak, Calm, Apply, Enabled;
      StepCalm(s, es[0]);
      RunCalm(Apply(s, es[0]), es[1..]);
    }
  }

  lemma {:induction false} FreshSuffix(names: set<Name>) returns (k: nat)
    ensures forall n: nat :: k <= n ==> RotatedKey(n) !in names && RotatedGroup(n) !in names
  {
    k := 0;
    if name :| name in names {
      k := FreshSuffix(names - {name});
      assert forall other :: other in names ==> other in names - {name} || other == name;
      var taken := if name.RotatedKey? || name.RotatedGroup? then name.suffix + 1 else 0;
      k := if k < taken then taken else k;
    }
  }

  /** A run that threatens the stored key can carry it out. */
  lemma Strikes(s: State, r: nat) returns (n: State)
    requires WeakSound(s) && s.stored.key.Some? && KeyUsable(s)
    requires r in s.active && WeakPhase(s, s.active[r]) && Threatens(s, s.active[r])
    ensures Reaches(s, n, false) && !KeyUsable(n)
    decreases Left(s.active[r])
  {
    hide Reaches;
    var p := s.active[r];
    var k := FreshSuffix(s.names);
    assert CanWork(s, p, k);
    var e := Step(r, Done, k);
    n := Apply(s, e);
    ReachesOne(s, e);
    if !p.Trust? && !p.Persist? {
      EffectWeak(s, p, k);
      StepForm(s, e);
      var q := After(s, p).value;
      WeakApart(Effect(s, p, k), n.active, q);
      CalmApart(Effect(s, p, k), n.active, q);
      NextStrike(s, p, k);
      hide WeakSound, WeakPhase, Effect, Apply, CanWork, KeyUsable, Threatens;
      var m := n;
      n := Strikes(m, r);
      ReachesBefore(s, e, n);
    }
  }

  lemma NextStrike(s: State, p: Phase, k: nat)
    requires WeakSound(s) && s.stored.key.Some? && KeyUsable(s) && WeakPhase(s, p) && Threatens(s, p)
    requires !p.Trust? && !p.Persist? && CanWork(s, p, k)
    ensures var m := Effect(s, p, k);
      && m.stored == s.stored && KeyUsable(m) && After(s, p).Some? && Threatens(m, After(s, p).value)
      && Left(After(s, p).value) < Left(p)
  {
  }

  lemma ReachesOne(s: State, e: Event)
    requires Enabled(s, e, false)
    ensures Reaches(s, Apply(s, e), false)
  {
    hide Apply, Enabled;
    assert Run(s, [], false) && Final(s, [], false) == s;
    ReachesStep(s, s, e, false);
  }

  lemma ReachesBefore(s: State, e: Event, n: State)
    requires Enabled(s, e, false) && Reaches(Apply(s, e), n, false)
    ensures Reaches(s, n, false)
  {
    hide Apply, Enabled;
    var es :| Run(Apply(s, e), es, false) && Final(Apply(s, e), es, false) == n;
    assert ([e] + es)[0] == e && ([e] + es)[1..] == es;
    assert Run(s, [e] + es, false);
  }

  /** Exactly which states with a stored key can lose it, with runs that overlap
      as they please: those in which a run in progress is to attach or store
      another key group than the trusted one. So once the runs that began before
      a key was stored are over, no overlap can break it. */
  lemma OverlapExact(s: State)
    requires Reachable(s, false) && s.stored.key.Some? && KeyUsable(s)
    ensures (forall n :: Reaches(s, n, false) ==> KeyUsable(n)) <==> !AtRisk(s)
  {
    ReachableWeak(s);
    if AtRisk(s) {
      var r :| r in s.active && Threatens(s, s.active[r]);
      var n := Strikes(s, r);
    } else {
      forall n | Reaches(s, n, false) ensures KeyUsable(n) {
        var es :| Run(s, es, false) && Final(s, es, false) == n;
        assert Calm(s);
        hide Apply, Enabled;
        RunCalm(s, es);
      }
    }
  }

  // ---- The code -------------------------------------------------------------------------------------

  /** How an AWS call or a statement goes, taken names aside. */
  function Answer(w: seq<Result>, i: nat): (r: Result)
    ensures AllDone(w) ==> r == Done
  {
    if i < |w| then w[i] else Done
  }

  predicate AllDone(w: seq<Result>) {
    forall i :: 0 <= i < |w| ==> w[i] == Done
  }

  /** The machine's step for a call that goes this way. */
  function Next(s: State, r: nat, result: Result, suffix: nat): State
    requires r in s.active
  {
    Apply(s, Step(r, if CanWork(s, s.active[r], suffix) then result else Refused, suffix))
  }

  /** A call that works brings an undisturbed run one step further. */
  lemma NextUndisturbed(s: State, r: nat, suffix: nat)
    requires r in s.active
    ensures var n := Next(s, r, Done, suffix);
      Undisturbed(s, r, suffix) == if r in n.active then Undisturbed(n, r, suffix) else n
  {
    var p := s.active[r];
    hide Effect;
    if CanWork(s, p, suffix) && After(s, p).Some? {
      assert Effect(s, p, suffix).(active := s.active[r := After(s, p).value]) == Next(s, r, Done, suffix);
    }
  }

  /** What persisting does to the machine. */
  lemma PersistForm(s: State, r: nat, info: Info, key: Option<nat>, result: Result, suffix: nat)
    requires r in s.active && s.active[r] == Persist(info, key)
    ensures Next(s, r, result, suffix) ==
      if result == Refused then s.(active := s.active - {r})
      else s.(active := s.active - {r}, next := s.next + 1, stored := match Saved(s.stored, info, key)
        case None => s.stored
        case Some(stored) => stored)
  {
    hide Merged;
  }

  class Provisioner {
    var dists: map<nat, Dist>
    var groups: map<nat, nat>
    var pubs: map<nat, nat>
    var names: set<Name>
    var next: nat
    var stored: Stored
    const strict: bool
    ghost var now: State

    ghost predicate Valid()
      reads this
    {
      && dists == now.dists && groups == now.groups && pubs == now.pubs && names == now.names && next == now.next
      && stored == now.stored && strict == now.strict
    }

    constructor (strict: bool)
      ensures Valid() && now == START.(strict := strict)
    {
      this.strict := strict;
      dists, groups, pubs, names, next := map[], map[], map[], {}, 0;
      stored := Stored(false, NOTHING, None);
      now := START.(strict := strict);
    }

    ghost predicate At(r: nat, p: Phase)
      reads this
    {
      r in now.active && now.active[r] == p
    }

    /** The machine went the way of the call: by a step of the run, and for an
        undisturbed one towards the same end. */
    ghost predicate Went(was: State, r: nat, result: Result, suffix: nat)
      reads this
      requires r in was.active
    {
      && now == Next(was, r, result, suffix)
      && (forall a :: Reaches(a, was, true) ==> Reaches(a, now, true))
      && (result == Done ==>
        Undisturbed(was, r, suffix) == if r in now.active then Undisturbed(now, r, suffix) else now)
    }

    /** The machine follows a call. */
    ghost method Follow(r: nat, result: Result, suffix: nat)
      requires r in now.active
      modifies this`now
      ensures Went(old(now), r, result, suffix)
    {
      hide Reaches, Undisturbed;
      ghost var e := Step(r, if CanWork(now, now.active[r], suffix) then result else Refused, suffix);
      if result == Done {
        NextUndisturbed(now, r, suffix);
      }
      forall a | Reaches(a, now, true) ensures Reaches(a, Apply(now, e), true) {
        ReachesStep(a, now, e, true);
      }
      now := Next(now, r, result, suffix);
    }

    method CreatePublicKey(ghost r: nat, name: Name, pair: nat, result: Result, ghost suffix: nat)
      returns (id: Option<nat>)
      requires Valid() && r in now.active && Some(name) == NameOf(now.active[r], suffix)
      requires (now.active[r].PublicKey? || now.active[r].NewKey?) && now.active[r].pair == pair
      modifies this
      ensures if id.Some? then r in now.active && Some(now.active[r]) == After(old(now), old(now.active[r]))
        else r !in now.active
      ensures Valid() && Went(old(now), r, result, suffix)
      ensures id == if result == Done && name !in old(names) then Some(old(next)) else None
      ensures dists == old(dists) && stored == old(stored) && (id.Some? ==> next == old(next) + 1)
    {
      hide Reaches, Undisturbed;
      Follow(r, result, suffix);
      id := None;
      if result != Refused && name !in names {
        pubs, names := pubs[next := pair], names + {name};
        id := if result == Done then Some(next) else None;
        next := next + 1;
      }
    }

    method CreateKeyGroup(ghost r: nat, name: Name, pub: nat, result: Result, ghost suffix: nat)
      returns (id: Option<nat>)
      requires Valid() && r in now.active && Some(name) == NameOf(now.active[r], suffix)
      requires (now.active[r].Group? || now.active[r].NewGroup?) && now.active[r].pub == pub
      modifies this
      ensures if id.Some? then r in now.active && Some(now.active[r]) == After(old(now), old(now.active[r]))
        else r !in now.active
      ensures Valid() && Went(old(now), r, result, suffix)
      ensures id == if result == Done && name !in old(names) then Some(old(next)) else None
      ensures dists == old(dists) && stored == old(stored) && (id.Some? ==> next == old(next) + 1)
    {
      hide Reaches, Undisturbed;
      Follow(r, result, suffix);
      id := None;
      if result != Refused && name !in names {
        groups, names := groups[next := pub], names + {name};
        id := if result == Done then Some(next) else None;
        next := next + 1;
      }
    }

    /** Origin access control and cache policy: calls that only yield an identifier. */
    method CreatePlain(ghost r: nat, name: Name, result: Result, ghost suffix: nat) returns (id: Option<nat>)
      requires Valid() && r in now.active && Some(name) == NameOf(now.active[r], suffix)
      requires now.active[r].Oac? || now.active[r].Cache?
      modifies this
      ensures if id.Some? then r in now.active && Some(now.active[r]) == After(old(now), old(now.active[r]))
        else r !in now.active
      ensures Valid() && Went(old(now), r, result, suffix)
      ensures id == if result == Done && !(strict && name in old(names)) then Some(old(next)) else None
      ensures stored == old(stored) && (id.Some? ==> next == old(next) + 1)
    {
      hide Reaches, Undisturbed;
      Follow(r, result, suffix);
      id := None;
      if result != Refused && !(strict && name in names) {
        id := if result == Done then Some(next) else None;
        next, names := next + 1, names + {name};
      }
    }

    method CreateDistribution(ghost r: nat, group: nat, result: Result, ghost suffix: nat) returns (id: Option<nat>)
      requires Valid() && r in now.active && now.active[r].Create? && now.active[r].group == group
      modifies this
      ensures if id.Some? then r in now.active && Some(now.active[r]) == After(old(now), old(now.active[r]))
        else r !in now.active
      ensures Valid() && Went(old(now), r, result, suffix)
      ensures id == if result == Done then Some(old(next)) else None
      ensures id.Some? ==> dists == old(dists)[id.value := Dist(false, group)]
      ensures stored == old(stored)
    {
      hide Reaches, Undisturbed;
      Follow(r, result, suffix);
      id := if result == Done then Some(next) else None;
      if result != Refused {
        dists := dists[next := Dist(false, group)];
        next := next + 1;
      }
    }

    method TagResource(ghost r: nat, d: nat, result: Result, ghost suffix: nat) returns (ok: bool)
      requires Valid() && r in now.active && now.active[r].Tag? && now.active[r].info.dist == Some(d) && d in dists
      modifies this
      ensures if ok then r in now.active && Some(now.active[r]) == After(old(now), old(now.active[r]))
        else r !in now.active
      ensures Valid() && Went(old(now), r, result, suffix)
      ensures ok == (result == Done) && stored == old(stored)
    {
      hide Reaches, Undisturbed;
      Follow(r, result, suffix);
      ok := result == Done;
      if result != Refused {
        dists := dists[d := dists[d].(tagged := true)];
        next := next + 1;
      }
    }

    method UpdateTrust(ghost r: nat, d: nat, group: nat, result: Result, ghost suffix: nat) returns (ok: bool)
      requires Valid() && r in now.active && now.active[r].Trust? && now.active[r].info.dist == Some(d)
        && now.active[r].group == group && d in dists
      modifies this
      ensures if ok then r in now.active && Some(now.active[r]) == After(old(now), old(now.active[r]))
        else r !in now.active
      ensures Valid() && Went(old(now), r, result, suffix)
      ensures ok == (result == Done) && stored == old(stored)
    {
      hide Reaches, Undisturbed;
      Follow(r, result, suffix);
      ok := result == Done;
      if result != Refused {
        dists := dists[d := dists[d].(trusts := group)];
        next := next + 1;
      }
    }

    /** The bucket policy, or reading the stored configuration: nothing the
        model keeps changes. */
    method Silent(ghost r: nat, result: Result, ghost suffix: nat) returns (ok: bool)
      requires Valid() && r in now.active && (now.active[r].Policy? || now.active[r].Check?)
      modifies this
      ensures if ok then r in now.active && Some(now.active[r]) == After(old(now), old(now.active[r]))
        else r !in now.active
      ensures Valid() && Went(old(now), r, result, suffix)
      ensures ok == (result == Done) && dists == old(dists) && stored == old(stored)
      ensures next == if result == Refused then old(next) else old(next) + 1
    {
      hide Reaches, Undisturbed;
      Follow(r, result, suffix);
      ok := result == Done;
      if result != Refused {
        next := next + 1;
      }
    }

    method Merge(info: Info) returns (merged: Info)
      ensures merged == Merged(stored.info, info)
      ensures merged.dist == if info.dist.Some? then info.dist else stored.info.dist
      ensures merged.domain == if info.domain.Some? then info.domain else stored.info.domain
      ensures merged.keyPair == if info.keyPair.Some? then info.keyPair else stored.info.keyPair
      ensures merged.keyGroup == if info.keyGroup.Some? then info.keyGroup else stored.info.keyGroup
      ensures merged.oac == if info.oac.Some? then info.oac else stored.info.oac
      ensures merged.cache == if info.cache.Some? then info.cache else stored.info.cache
    {
      merged := info;
      if merged.dist.None? { merged := merged.(dist := stored.info.dist); }
      if merged.domain.None? { merged := merged.(domain := stored.info.domain); }
      if merged.keyPair.None? { merged := merged.(keyPair := stored.info.keyPair); }
      if merged.keyGroup.None? { merged := merged.(keyGroup := stored.info.keyGroup); }
      if merged.oac.None? { merged := merged.(oac := stored.info.oac); }
      if merged.cache.None? { merged := merged.(cache := stored.info.cache); }
    }

    /** The row to save: merged field by field, refused without domain, ID or key. */
    method Compose(info: Info, key: Option<nat>) returns (row: Option<Stored>)
      ensures row == Saved(stored, info, key)
      ensures row.Some? <==>
        && (info.domain.Some? || stored.info.domain.Some?) && (info.keyPair.Some? || stored.info.keyPair.Some?)
        && (key.Some? || stored.key.Some?)
      ensures row.Some? ==> row.value.enabled && row.value.key == if key.Some? then key else stored.key
      ensures row.Some? ==> row.value.info == Info(
        if info.dist.Some? then info.dist else stored.info.dist,
        if info.domain.Some? then info.domain else stored.info.domain,
        if info.keyPair.Some? then info.keyPair else stored.info.keyPair,
        if info.keyGroup.Some? then info.keyGroup else stored.info.keyGroup,
        if info.oac.Some? then info.oac else stored.info.oac,
        if info.cache.Some? then info.cache else stored.info.cache)
    {
      var merged := Merge(info);
      hide Merged;
      if merged.domain.None? {
        return None;
      }
      var encKey := if key.Some? then key else stored.key;
      if merged.keyPair.None? || encKey.None? {
        return None;
      }
      return Some(Stored(true, merged, encKey));
    }

    /** Save: the composed row is written, unless the statement fails. */
    method Save(ghost r: nat, info: Info, key: Option<nat>, result: Result, ghost suffix: nat) returns (ok: bool)
      requires Valid() && r in now.active && now.active[r] == Persist(info, key)
      modifies this
      ensures Valid() && Went(old(now), r, result, suffix)
      ensures r !in now.active
      ensures var was := old(stored);
        var domain := if info.domain.Some? then info.domain else was.info.domain;
        var keyPair := if info.keyPair.Some? then info.keyPair else was.info.keyPair;
        var pem := if key.Some? then key else was.key;
        var complete := domain.Some? && keyPair.Some? && pem.Some?;
        && ok == (result == Done && complete)
        && stored == if result == Refused || !complete then was else
          Stored(true, Info(
            if info.dist.Some? then info.dist else was.info.dist, domain, keyPair,
            if info.keyGroup.Some? then info.keyGroup else was.info.keyGroup,
            if info.oac.Some? then info.oac else was.info.oac,
            if info.cache.Some? then info.cache else was.info.cache), pem)
    {
      hide Reaches, Undisturbed, Saved;
      PersistForm(now, r, info, key, result, suffix);
      Follow(r, result, suffix);
      hide Next;
      if result == Refused {
        return false;
      }
      next := next + 1;
      var row := Compose(info, key);
      if row.None? {
        return false;
      }
      stored := row.value;
      return result == Done;
    }

    method Disable()
      requires Valid()
      modifies this
      ensures Valid() && stored == old(stored).(enabled := false) && now.active == old(now).active
      ensures forall a :: Reaches(a, old(now), true) ==> Reaches(a, now, true)
    {
      hide Reaches;
      forall a | Reaches(a, now, true) ensures Reaches(a, Apply(now, Disabled), true) {
        ReachesStep(a, now, Disabled, true);
      }
      now := Apply(now, Disabled);
      stored := stored.(enabled := false);
    }

    /** The run so far did only what an undisturbed one does, if all went well. */
    ghost predicate OnCourse(r: nat, w: seq<Result>, suffix: nat, goal: State)
      reads this
    {
      AllDone(w) ==> goal == if r in now.active then Undisturbed(now, r, suffix) else now
    }

    /** The creation half of Ensure: a fresh distribution. The answers to its
        calls come from `w` in order. */
    method CreateAll(ghost r: nat, pair: nat, w: seq<Result>, ghost suffix: nat, ghost goal: State)
      returns (info: Option<Info>)
      requires Valid() && At(r, Oac(pair)) && OnCourse(r, w, suffix, goal)
      modifies this
      ensures Valid() && OnCourse(r, w, suffix, goal)
      ensures if info.Some? then At(r, Persist(info.value, Some(pair))) else r !in now.active
      ensures var n := old(next);
        info.Some? ==> info.value == Info(Some(n + 4), Some(n + 4), Some(n + 1), Some(n + 2), Some(n), Some(n + 3))
      ensures stored == old(stored)
      ensures forall a :: Reaches(a, old(now), true) ==> Reaches(a, now, true)
    {
      hide Reaches, Undisturbed, AllDone, Next, Answer;
      info := None;
      var oac := CreatePlain(r, BaseOac, Answer(w, 0), suffix);
      if oac.None? { return; }
      var pub := CreatePublicKey(r, BaseKey, pair, Answer(w, 1), suffix);
      if pub.None? { return; }
      var group := CreateKeyGroup(r, BaseGroup, pub.value, Answer(w, 2), suffix);
      if group.None? { return; }
      var cache := CreatePlain(r, BaseCache, Answer(w, 3), suffix);
      if cache.None? { return; }
      info := CreateTagged(r, pair, oac.value, pub.value, group.value, cache.value, w, suffix, goal);
    }

    /** The distribution itself, its tags and the bucket policy. */
    method CreateTagged(ghost r: nat, ghost pair: nat, oac: nat, pub: nat, group: nat, cache: nat, w: seq<Result>,
                        ghost suffix: nat, ghost goal: State) returns (info: Option<Info>)
      requires Valid() && At(r, Create(pair, oac, pub, group, cache)) && OnCourse(r, w, suffix, goal)
      modifies this
      ensures Valid() && OnCourse(r, w, suffix, goal)
      ensures if info.Some? then At(r, Persist(info.value, Some(pair))) else r !in now.active
      ensures var d := Some(old(next));
        info.Some? ==> info.value == Info(d, d, Some(pub), Some(group), Some(oac), Some(cache))
      ensures stored == old(stored)
      ensures forall a :: Reaches(a, old(now), true) ==> Reaches(a, now, true)
    {
      hide Reaches, Undisturbed, AllDone, Next, Answer;
      info := None;
      var d := CreateDistribution(r, group, Answer(w, 4), suffix);
      if d.None? { return; }
      var ok := TagResource(r, d.value, Answer(w, 5), suffix);
      if !ok { return; }
      ok := Silent(r, Answer(w, 6), suffix);
      if !ok { return; }
      return Some(Info(d, d, Some(pub), Some(group), Some(oac), Some(cache)));
    }

    /** RotateKey: a fresh key pair onto the distribution that was found. */
    method RotateKey(ghost r: nat, info: Info, pair: nat, moment: nat, w: seq<Result>, ghost goal: State)
      returns (updated: Option<Info>)
      requires Valid() && At(r, NewKey(info, pair)) && OnCourse(r, w, moment, goal)
      requires info.dist.Some? && info.dist.value in dists
      modifies this
      ensures Valid() && OnCourse(r, w, moment, goal)
      ensures if updated.Some? then At(r, Persist(updated.value, Some(pair))) else r !in now.active
      ensures updated.Some? ==>
        updated.value == info.(keyPair := Some(old(next)), keyGroup := Some(old(next) + 1))
      ensures stored == old(stored)
      ensures forall a :: Reaches(a, old(now), true) ==> Reaches(a, now, true)
    {
      hide Reaches, Undisturbed, AllDone, Next, Answer, Effect, Apply, Enabled, CanWork;
      updated := None;
      var pub := CreatePublicKey(r, RotatedKey(moment), pair, Answer(w, 1), moment);
      if pub.None? { return; }
      var group := CreateKeyGroup(r, RotatedGroup(moment), pub.value, Answer(w, 2), moment);
      if group.None? { return; }
      updated := Attach(r, info, pair, pub.value, group.value, moment, w, goal);
    }

    /** The new key group replaces the trust, and the bucket policy is ensured. */
    method Attach(ghost r: nat, info: Info, ghost pair: nat, pub: nat, group: nat, ghost moment: nat,
                  w: seq<Result>, ghost goal: State) returns (updated: Option<Info>)
      requires Valid() && At(r, Trust(info, pair, pub, group)) && OnCourse(r, w, moment, goal)
      requires info.dist.Some? && info.dist.value in dists
      modifies this
      ensures Valid() && OnCourse(r, w, moment, goal)
      ensures if updated.Some? then At(r, Persist(updated.value, Some(pair))) else r !in now.active
      ensures updated.Some? ==> updated.value == info.(keyPair := Some(pub), keyGroup := Some(group))
      ensures stored == old(stored)
      ensures forall a :: Reaches(a, old(now), true) ==> Reaches(a, now, true)
    {
      hide Reaches, Undisturbed, AllDone, Next, Answer;
      updated := None;
      var ok := UpdateTrust(r, info.dist.value, group, Answer(w, 3), moment);
      if !ok { return; }
      ok := Silent(r, Answer(w, 4), moment);
      if !ok { return; }
      return Some(info.(keyPair := Some(pub), keyGroup := Some(group)));
    }

    /** EnsureReady: provision, or reuse with the stored key, or rotate. `found`
        is what the lookup gives. */
    method EnsureReady(ghost r: nat, found: Option<nat>, moment: nat, w: seq<Result>)
      returns (info: Option<Info>, key: Option<nat>)
      requires Valid() && now.active == map[] && (found.Some? ==> Tagged(now, found.value))
      modifies this
      ensures Valid() && OnCourse(r, w, moment, Provision(old(now), r, found, moment))
      ensures if info.Some? then At(r, Persist(info.value, key)) else r !in now.active
      ensures stored == old(stored)
      ensures info.Some? && found.None? ==> key == Some(old(next))
      ensures var n := old(next); info.Some? && found.None? ==>
        info.value == Info(Some(n + 5), Some(n + 5), Some(n + 2), Some(n + 3), Some(n + 1), Some(n + 4))
      ensures var n := old(next) + 1; info.Some? && found.Some? ==>
        if stored.key.Some? then key == None && info.value == Info(found, found, None, None, None, None)
        else key == Some(n) && info.value == Info(found, found, Some(n + 1), Some(n + 2), None, None)
      ensures Reaches(old(now), now, true)
    {
      hide Reaches, Undisturbed, AllDone, Next, Answer;
      ghost var goal := Provision(now, r, found, moment);
      Start(r, found);
      var pair := next;
      next := next + 1;
      if found.None? {
        info := CreateAll(r, pair, w, moment, goal);
        key := Some(pair);
      } else {
        info, key := Reuse(r, found.value, moment, w, goal);
      }
    }

    /** The found distribution with the stored key, or with a new one. */
    method Reuse(ghost r: nat, found: nat, moment: nat, w: seq<Result>, ghost goal: State)
      returns (info: Option<Info>, key: Option<nat>)
      requires Valid() && At(r, Check(Found(found))) && OnCourse(r, w, moment, goal) && found in dists
      modifies this
      ensures Valid() && OnCourse(r, w, moment, goal)
      ensures if info.Some? then At(r, Persist(info.value, key)) else r !in now.active
      ensures stored == old(stored)
      ensures var n, d := old(next), Some(found); info.Some? ==>
        if stored.key.Some? then key == None && info.value == Info(d, d, None, None, None, None)
        else key == Some(n) && info.value == Info(d, d, Some(n + 1), Some(n + 2), None, None)
      ensures forall a :: Reaches(a, old(now), true) ==> Reaches(a, now, true)
    {
      hide Reaches, Undisturbed, AllDone, Next, Answer;
      info, key := None, None;
      var pair := next;
      var ok := Silent(r, Answer(w, 0), moment);
      if !ok { return; }
      if stored.key.Some? {
        return Some(Found(found)), None;
      }
      info := RotateKey(r, Found(found), pair, moment, w, goal);
      key := Some(pair);
    }

    ghost method Start(r: nat, found: Option<nat>)
      requires Valid() && now.active == map[] && (found.Some? ==> Tagged(now, found.value))
      modifies this`now
      ensures now == Apply(old(now), Begin(r, found)) && Reaches(old(now), now, true)
    {
      assert Run(now, [], true) && Final(now, [], true) == now;
      ReachesStep(now, now, Begin(r, found), true);
      now := Apply(now, Begin(r, found));
    }

    /** A whole provisioning run, as both of its callers do it. */
    method ProvisionAndSave(ghost r: nat, found: Option<nat>, moment: nat, w: seq<Result>, saving: Result)
      returns (ok: bool)
      requires Valid() && now.active == map[] && (found.Some? ==> Tagged(now, found.value))
      modifies this
      ensures Valid() && Reaches(old(now), now, true) && r !in now.active
      ensures AllDone(w) && saving == Done ==> now == Provision(old(now), r, found, moment)
      ensures found.Some? ==> stored.info.oac == old(stored).info.oac && stored.info.cache == old(stored).info.cache
      ensures ok && found.None? ==> var n := old(next); stored == Stored(true,
        Info(Some(n + 5), Some(n + 5), Some(n + 2), Some(n + 3), Some(n + 1), Some(n + 4)), Some(n))
    {
      hide Reaches, Undisturbed, AllDone, Next;
      var info, key := EnsureReady(r, found, moment, w);
      ok := false;
      if info.Some? {
        ok := Save(r, info.value, key, saving, moment);
      }
    }
  }
}