/** The configuration scheduler (src/config_wrapper.cpp): EVM version promotion, the miner cut
    and the two price queues that share one `queue_front_block`. */
module Config {
  import opened Options
  import opened BlockMapping
  import opened Promoter
  import opened PriceQueue

  const MAX_VERSION: nat := 3
  const NINETY_PERCENT: nat := 90_000

  datatype Config = Config(
    genesis: nat,
    gasPrice: nat,
    gasPrices: GasPrices,
    minerCut: nat,
    version: Promoter<nat>,
    front: nat,
    prices: seq<Entry<nat>>,
    pairs: seq<Entry<GasPrices>>)

  function InitConfig(genesis: nat, gasPrice: nat, minerCut: nat): Config {
    Config(genesis, gasPrice, GasPrices(None, None), minerCut, Promoter(None, 0), 0, [], [])
  }

  function Version(cfg: Config, now: Time): nat {
    GetValue(cfg.version, cfg.genesis, now)
  }

  function ScalarQueue(cfg: Config): Queue<nat> {
    Queue(cfg.front, cfg.prices, cfg.gasPrice)
  }

  function PairQueue(cfg: Config): Queue<GasPrices> {
    Queue(cfg.front, cfg.pairs, cfg.gasPrices)
  }

  function WithScalar(cfg: Config, q: Queue<nat>): Config {
    cfg.(front := q.front, prices := q.entries, gasPrice := q.current)
  }

  function WithPairs(cfg: Config, q: Queue<GasPrices>): Config {
    cfg.(front := q.front, pairs := q.entries, gasPrices := q.current)
  }

  function EnqueueGasPrice(cfg: Config, v: nat, now: Time): Option<Config> {
    var q :- Enqueue(SCALAR, ScalarQueue(cfg), v, Activation(cfg.genesis, now));
    Some(WithScalar(cfg, q))
  }

  function EnqueueGasPrices(cfg: Config, v: GasPrices, now: Time): Option<Config> {
    var q :- Enqueue(PAIRS, PairQueue(cfg), v, Activation(cfg.genesis, now));
    Some(WithPairs(cfg, q))
  }

  function ProcessPriceQueue(cfg: Config, now: Time): Config {
    if Version(cfg, now) >= 3 then WithPairs(cfg, Process(PAIRS, PairQueue(cfg), BlockNum(cfg.genesis, now)))
    else WithScalar(cfg, Process(SCALAR, ScalarQueue(cfg), BlockNum(cfg.genesis, now)))
  }

  predicate Promotable(cfg: Config, now: Time) {
    cfg.version.pending.Some? && IsActive(cfg.version.pending.value, cfg.genesis, now)
  }

  /** `get_evm_version_and_maybe_promote`. */
  function MaybePromote(cfg: Config, now: Time): Config {
    var p := Promote(cfg.version, cfg.genesis, now);
    cfg.(version := p, minerCut := if Promotable(cfg, now) && p.cached >= 1 then 0 else cfg.minerCut)
  }

  function SetVersion(cfg: Config, v: nat, now: Time): Option<Config> {
    if v > MAX_VERSION then None
    else
      :- Need(v != 3 || (cfg.front == 0 && cfg.gasPrices.storage.GetOr(0) != 0));
      var cfg1 := MaybePromote(cfg, now);
      :- Need(v > cfg1.version.cached);
      Some(cfg1.(version := Update(cfg1.version, (_: nat) => v, cfg.genesis, now),
                 gasPrice := if v == 3 then 0 else cfg.gasPrice))
  }

  /** `set_fee_parameters` as `setfeeparams` calls it, without the bridge fee. */
  function SetFeeParameters(cfg: Config, gasPrice: Option<nat>, minerCut: Option<nat>, now: Time): Option<Config> {
    var cfg1 :-
      if gasPrice.None? then Some(cfg)
      else if Version(cfg, now) >= 3 then None
      else if Version(cfg, now) >= 1 then EnqueueGasPrice(cfg, gasPrice.value, now)
      else Some(cfg.(gasPrice := gasPrice.value));
    if minerCut.None? then Some(cfg1)
    else
      :- Need(Version(cfg, now) == 0 && minerCut.value <= NINETY_PERCENT);
      Some(cfg1.(minerCut := minerCut.value))
  }

  /** The `setgasprices` action. */
  function SetGasPrices(cfg: Config, v: GasPrices, now: Time): Option<Config> {
    if v.overhead.None? && v.storage.None? then None
    else
      :- Need(v.storage.Some? ==> v.storage.value > 0);
      var cfg1 := MaybePromote(cfg, now);
      if cfg1.version.cached >= 3 then EnqueueGasPrices(cfg1, v, now)
      else Some(cfg1.(gasPrices := Merge(cfg1.gasPrices, v)))
  }

  /** The price part of `update_consensus_parameters`, which needs version 1. */
  function SetStoragePrice(cfg: Config, price: nat, now: Time): Option<Config> {
    if price == 0 || Version(cfg, now) < 1 then None
    else if Version(cfg, now) >= 3 then EnqueueGasPrices(cfg, GasPrices(None, Some(price)), now)
    else EnqueueGasPrice(cfg, price, now)
  }

  /** What every transaction does to the configuration. */
  function Transact(cfg: Config, now: Time): Config {
    MaybePromote(if Version(cfg, now) >= 1 then ProcessPriceQueue(cfg, now) else cfg, now)
  }

  // ---- invariants ----

  predicate VersionOk(cfg: Config, now: Time) {
    && cfg.version.cached <= MAX_VERSION
    && (cfg.version.pending.Some? ==>
          cfg.version.cached < cfg.version.pending.value.value <= MAX_VERSION && cfg.version.pending.value.time <= now)
  }

  predicate MinerCutOk(cfg: Config) {
    cfg.minerCut <= NINETY_PERCENT && (cfg.version.cached >= 1 ==> cfg.minerCut == 0)
  }

  /** The queue the active version uses is in order, and its cached front is never late. */
  predicate QueuesSound(cfg: Config, now: Time) {
    var a := Activation(cfg.genesis, now);
    if Version(cfg, now) >= 3 then QueueSound(PairQueue(cfg)) && UpTo(PairQueue(cfg), a)
    else
      && cfg.pairs == [] && QueueOk(ScalarQueue(cfg)) && UpTo(ScalarQueue(cfg), a)
      && (Version(cfg, now) == 0 ==> cfg.prices == [])
  }

  predicate Sound(cfg: Config, now: Time) {
    VersionOk(cfg, now) && MinerCutOk(cfg) && QueuesSound(cfg, now)
  }

  /** Version 3 is in force or about to be. */
  predicate PairRegime(cfg: Config) {
    cfg.version.cached == 3 || (cfg.version.pending.Some? && cfg.version.pending.value.value == 3)
  }

  /** Version 3 has been set in this very block and is not in force yet. */
  predicate PairsPending(cfg: Config, now: Time) {
    PairRegime(cfg) && Version(cfg, now) < 3
  }

  /** Moreover the shared front is exactly the smallest block of the queue in use, 0 when empty. */
  predicate ConfigOk(cfg: Config, now: Time) {
    Sound(cfg, now) && (PairRegime(cfg) ==> cfg.prices == [] && QueueOk(PairQueue(cfg)))
  }

  lemma TimePasses(cfg: Config, t: Time, u: Time)
    requires VersionOk(cfg, t) && t <= u
    ensures VersionOk(cfg, u) && Version(cfg, t) <= Version(cfg, u)
    ensures Sound(cfg, t) ==> Sound(cfg, u)
    ensures ConfigOk(cfg, t) ==> ConfigOk(cfg, u)
  {
    BlockNumMonotone(cfg.genesis, t, u);
    ActivationMonotone(cfg.genesis, t, u);
  }

  lemma PromoteOk(cfg: Config, now: Time)
    requires VersionOk(cfg, now)
    ensures var cfg' := MaybePromote(cfg, now);
            && VersionOk(cfg', now)
            && cfg'.version.cached == Version(cfg', now) == Version(cfg, now)
            && !Promotable(cfg', now)
            && cfg.version.cached <= cfg'.version.cached
            && (MinerCutOk(cfg) ==> MinerCutOk(cfg'))
            && (Sound(cfg, now) ==> Sound(cfg', now))
            && (ConfigOk(cfg, now) ==> ConfigOk(cfg', now))
            && (PairRegime(cfg) <==> PairRegime(cfg'))
  {
  }

  // ---- steps ----

  datatype Op =
    | OpSetVersion(v: nat)
    | OpSetFee(gasPrice: Option<nat>, minerCut: Option<nat>)
    | OpSetGasPrices(prices: GasPrices)
    | OpSetStoragePrice(price: nat)
    | OpTransact

  function Apply(cfg: Config, now: Time, op: Op): Option<Config> {
    match op
    case OpSetVersion(v) => SetVersion(cfg, v, now)
    case OpSetFee(g, m) => SetFeeParameters(cfg, g, m, now)
    case OpSetGasPrices(p) => SetGasPrices(cfg, p, now)
    case OpSetStoragePrice(p) => SetStoragePrice(cfg, p, now)
    case OpTransact => Some(Transact(cfg, now))
  }

  function Step(cfg: Config, s: (Time, Op)): Config {
    Apply(cfg, s.0, s.1).GetOr(cfg)
  }

  function Run(cfg: Config, steps: seq<(Time, Op)>): Config
    decreases |steps|
  {
    if steps == [] then cfg else Run(Step(cfg, steps[0]), steps[1..])
  }

  /** Times never go back, and none lies before `now`. */
  predicate Ordered(now: Time, steps: seq<(Time, Op)>)
    decreases |steps|
  {
    steps != [] ==> now <= steps[0].0 && Ordered(steps[0].0, steps[1..])
  }

  function EndOf(now: Time, steps: seq<(Time, Op)>): Time {
    if steps == [] then now else steps[|steps| - 1].0
  }

  // ---- versions and the miner cut, over every run ----

  lemma ApplyVersion(cfg: Config, now: Time, op: Op)
    requires VersionOk(cfg, now) && MinerCutOk(cfg)
    ensures var r := Apply(cfg, now, op);
            r.Some? ==>
              && VersionOk(r.value, now) && MinerCutOk(r.value)
              && Version(r.value, now) == Version(cfg, now)
              && cfg.version.cached <= r.value.version.cached
              && r.value.genesis == cfg.genesis
  {
  }

  /** The active version never goes down and stays supported; the miner cut stays within 90% and
      is 0 for good once a version of at least 1 has been promoted. */
  lemma {:induction false} RunVersions(cfg: Config, now: Time, steps: seq<(Time, Op)>)
    requires VersionOk(cfg, now) && MinerCutOk(cfg) && Ordered(now, steps)
    ensures var cfg', end := Run(cfg, steps), EndOf(now, steps);
            && now <= end && VersionOk(cfg', end)
            && Version(cfg, now) <= Version(cfg', end) <= MAX_VERSION
            && cfg'.minerCut <= NINETY_PERCENT
            && (cfg.version.cached >= 1 ==> cfg'.version.cached >= 1 && cfg'.minerCut == 0)
    decreases |steps|
  {
    if steps != [] {
      var t := steps[0].0;
      TimePasses(cfg, now, t);
      ApplyVersion(cfg, t, steps[0].1);
      RunVersions(Step(cfg, steps[0]), t, steps[1..]);
      assert EndOf(t, steps[1..]) == EndOf(now, steps);
    }
  }

  /** The accepted `setversion` calls: the block and the version of each. */
  function VersionLog(cfg: Config, log: Log<nat>, steps: seq<(Time, Op)>): Log<nat>
    decreases |steps|
  {
    if steps == [] then log
    else VersionLog(Step(cfg, steps[0]), VersionStep(cfg, log, steps[0]), steps[1..])
  }

  function VersionStep(cfg: Config, log: Log<nat>, s: (Time, Op)): Log<nat> {
    if s.1.OpSetVersion? && Apply(cfg, s.0, s.1).Some? then log + [(BlockNum(cfg.genesis, s.0), s.1.v)] else log
  }

  lemma StepVersionLog(cfg: Config, log: Log<nat>, now: Time, s: (Time, Op))
    requires Represents(cfg.version, cfg.genesis, 0, log, now) && now <= s.0
    ensures Step(cfg, s).genesis == cfg.genesis
    ensures Represents(Step(cfg, s).version, cfg.genesis, 0, VersionStep(cfg, log, s), s.0)
  {
    RepresentsLater(cfg.version, cfg.genesis, 0, log, now, s.0);
    RepresentsShows(cfg.version, cfg.genesis, 0, log, s.0, s.0);
    if s.1.OpSetVersion? {
      UpdateRepresents(Promote(cfg.version, cfg.genesis, s.0), cfg.genesis, 0, log, s.0, s.0, (_: nat) => s.1.v);
    }
  }

  /** The version in force in any later block is the last one accepted in a strictly earlier block. */
  lemma {:induction false} VersionTimeline(cfg: Config, log: Log<nat>, now: Time, steps: seq<(Time, Op)>, later: Time)
    requires Represents(cfg.version, cfg.genesis, 0, log, now) && Ordered(now, steps) && EndOf(now, steps) <= later
    ensures Run(cfg, steps).genesis == cfg.genesis
    ensures Version(Run(cfg, steps), later) == Seen(0, VersionLog(cfg, log, steps), BlockNum(cfg.genesis, later))
    decreases |steps|
  {
    if steps == [] {
      RepresentsShows(cfg.version, cfg.genesis, 0, log, now, later);
    } else {
      StepVersionLog(cfg, log, now, steps[0]);
      assert EndOf(steps[0].0, steps[1..]) == EndOf(now, steps);
      VersionTimeline(Step(cfg, steps[0]), VersionStep(cfg, log, steps[0]), steps[0].0, steps[1..], later);
    }
  }

  // ---- the queues, over every run ----

  lemma EnqueueScalarSound(cfg: Config, v: nat, now: Time)
    requires Sound(cfg, now) && 1 <= Version(cfg, now) < 3
    ensures var r := EnqueueGasPrice(cfg, v, now);
            r.Some? && Sound(r.value, now) && r.value.version == cfg.version
  {
    EnqueueKeepsOk(SCALAR, ScalarQueue(cfg), v, Activation(cfg.genesis, now));
  }

  lemma EnqueuePairSound(cfg: Config, v: GasPrices, now: Time)
    requires Sound(cfg, now) && Version(cfg, now) >= 3
    ensures var r := EnqueueGasPrices(cfg, v, now);
            && r.Some? && Sound(r.value, now) && r.value.version == cfg.version && r.value.prices == cfg.prices
            && (QueueOk(PairQueue(cfg)) ==> QueueOk(PairQueue(r.value)))
  {
    EnqueueKeepsOk(PAIRS, PairQueue(cfg), v, Activation(cfg.genesis, now));
  }

  lemma ProcessSound(cfg: Config, now: Time)
    requires Sound(cfg, now)
    ensures var cfg' := ProcessPriceQueue(cfg, now);
            Sound(cfg', now) && cfg'.version == cfg.version && (ConfigOk(cfg, now) ==> ConfigOk(cfg', now))
  {
    var a, b := Activation(cfg.genesis, now), BlockNum(cfg.genesis, now);
    if Version(cfg, now) >= 3 {
      ProcessKeepsUpTo(PAIRS, PairQueue(cfg), b, a);
    } else {
      ProcessKeepsUpTo(SCALAR, ScalarQueue(cfg), b, a);
    }
  }

  lemma SetVersionSound(cfg: Config, v: nat, now: Time)
    requires Sound(cfg, now)
    ensures var r := SetVersion(cfg, v, now);
            r.Some? ==> Sound(r.value, now) && (ConfigOk(cfg, now) ==> ConfigOk(r.value, now))
  {
    PromoteOk(cfg, now);
  }

  lemma SetFeeSound(cfg: Config, gasPrice: Option<nat>, minerCut: Option<nat>, now: Time)
    requires Sound(cfg, now)
    ensures var r := SetFeeParameters(cfg, gasPrice, minerCut, now);
            r.Some? ==> Sound(r.value, now)
  {
    if gasPrice.Some? && 1 <= Version(cfg, now) < 3 {
      EnqueueScalarSound(cfg, gasPrice.value, now);
    }
  }

  lemma SetGasPricesSound(cfg: Config, v: GasPrices, now: Time)
    requires Sound(cfg, now)
    ensures var r := SetGasPrices(cfg, v, now);
            r.Some? ==> Sound(r.value, now) && (ConfigOk(cfg, now) ==> ConfigOk(r.value, now))
  {
    var cfg1 := MaybePromote(cfg, now);
    PromoteOk(cfg, now);
    if cfg1.version.cached >= 3 {
      EnqueuePairSound(cfg1, v, now);
    }
  }

  lemma SetStoragePriceSound(cfg: Config, price: nat, now: Time)
    requires Sound(cfg, now)
    ensures var r := SetStoragePrice(cfg, price, now);
            r.Some? ==> Sound(r.value, now)
  {
    if Version(cfg, now) >= 3 {
      EnqueuePairSound(cfg, GasPrices(None, Some(price)), now);
    } else if Version(cfg, now) >= 1 {
      EnqueueScalarSound(cfg, price, now);
    }
  }

  lemma TransactSound(cfg: Config, now: Time)
    requires Sound(cfg, now)
    ensures Sound(Transact(cfg, now), now) && (ConfigOk(cfg, now) ==> ConfigOk(Transact(cfg, now), now))
  {
    ProcessSound(cfg, now);
    PromoteOk(if Version(cfg, now) >= 1 then ProcessPriceQueue(cfg, now) else cfg, now);
  }

  lemma ApplySound(cfg: Config, now: Time, op: Op)
    requires Sound(cfg, now)
    ensures var r := Apply(cfg, now, op);
            r.Some? ==> Sound(r.value, now)
  {
    match op {
      case OpSetVersion(v) => SetVersionSound(cfg, v, now);
      case OpSetFee(g, m) => SetFeeSound(cfg, g, m, now);
      case OpSetGasPrices(p) => SetGasPricesSound(cfg, p, now);
      case OpSetStoragePrice(p) => SetStoragePriceSound(cfg, p, now);
      case OpTransact => TransactSound(cfg, now);
    }
  }

  /** In every run the queue in use stays in order and its front is never late; "internal error"
      never occurs in it. */
  lemma {:induction false} RunSound(cfg: Config, now: Time, steps: seq<(Time, Op)>)
    requires Sound(cfg, now) && Ordered(now, steps)
    ensures now <= EndOf(now, steps) && Sound(Run(cfg, steps), EndOf(now, steps))
    decreases |steps|
  {
    if steps != [] {
      var t := steps[0].0;
      TimePasses(cfg, now, t);
      ApplySound(cfg, t, steps[0].1);
      RunSound(Step(cfg, steps[0]), t, steps[1..]);
      assert EndOf(t, steps[1..]) == EndOf(now, steps);
    }
  }

  lemma InitOk(genesis: nat, gasPrice: nat, minerCut: nat, now: Time)
    requires minerCut <= NINETY_PERCENT
    ensures ConfigOk(InitConfig(genesis, gasPrice, minerCut), now)
    ensures Represents(InitConfig(genesis, gasPrice, minerCut).version, genesis, 0, [], now)
  {
  }

  // ---- when the shared front is exact ----

  /** The scalar price an operation enqueues. */
  function ScalarEnqueued(cfg: Config, now: Time, op: Op): Option<nat> {
    if !(1 <= Version(cfg, now) < 3) then None
    else if op.OpSetStoragePrice? then Some(op.price)
    else if op.OpSetFee? then op.gasPrice
    else None
  }

  /** No new scalar price is enqueued between `setversion(3)` and its activation in the next block. */
  predicate Orderly(cfg: Config, now: Time, op: Op) {
    var v := ScalarEnqueued(cfg, now, op);
    v.Some? && PairsPending(cfg, now) ==> v.value == cfg.gasPrice
  }

  /** Pricing an EVM that is about to become version 3 leaves a front that belongs to no pair,
      exactly unless the price is the (zeroed) current one. */
  lemma PendingRegimeBreaks(cfg: Config, v: nat, now: Time)
    requires ConfigOk(cfg, now) && 1 <= Version(cfg, now) < 3
    ensures var r := EnqueueGasPrice(cfg, v, now);
            r.Some? && (ConfigOk(r.value, now) <==> !PairsPending(cfg, now) || v == cfg.gasPrice)
  {
    EnqueueScalarSound(cfg, v, now);
  }

  /** An accepted operation keeps the front exact if and only if it is orderly. */
  lemma ApplyOk(cfg: Config, now: Time, op: Op)
    requires ConfigOk(cfg, now)
    ensures var r := Apply(cfg, now, op);
            r.Some? ==> (ConfigOk(r.value, now) <==> Orderly(cfg, now, op))
  {
    var v := ScalarEnqueued(cfg, now, op);
    if v.Some? {
      PendingRegimeBreaks(cfg, v.value, now);
    }
    match op {
      case OpSetVersion(v) => SetVersionSound(cfg, v, now);
      case OpSetFee(g, m) =>
      case OpSetGasPrices(p) => SetGasPricesSound(cfg, p, now);
      case OpSetStoragePrice(p) =>
        if Version(cfg, now) >= 3 {
          EnqueuePairSound(cfg, GasPrices(None, Some(p)), now);
        }
      case OpTransact => TransactSound(cfg, now);
    }
  }

  predicate OrderlyRun(cfg: Config, steps: seq<(Time, Op)>)
    decreases |steps|
  {
    steps != [] ==> Orderly(cfg, steps[0].0, steps[0].1) && OrderlyRun(Step(cfg, steps[0]), steps[1..])
  }

  lemma {:induction false} RunOk(cfg: Config, now: Time, steps: seq<(Time, Op)>)
    requires ConfigOk(cfg, now) && Ordered(now, steps) && OrderlyRun(cfg, steps)
    ensures ConfigOk(Run(cfg, steps), EndOf(now, steps))
    decreases |steps|
  {
    if steps != [] {
      var t := steps[0].0;
      TimePasses(cfg, now, t);
      ApplyOk(cfg, t, steps[0].1);
      RunOk(Step(cfg, steps[0]), t, steps[1..]);
      assert EndOf(t, steps[1..]) == EndOf(now, steps);
    }
  }

  // ---- the price a transaction pays, over every run ----

  datatype Price = Scalar(price: nat) | Pair(prices: GasPrices)

  /** What `get_gas_price` reads once a transaction has brought the configuration up to date. */
  function PaidPrice(cfg: Config, now: Time): Price {
    var cfg' := Transact(cfg, now);
    if cfg'.version.cached >= 3 then Pair(cfg'.gasPrices) else Scalar(cfg'.gasPrice)
  }

  /** The prices announced so far for every block. */
  datatype Announcements = Announcements(scalar: nat -> nat, pairs: nat -> GasPrices)

  function AnnounceScalar(p: Announcements, v: nat, a: nat): Announcements {
    var before := p.scalar;
    p.(scalar := (b: nat) => if b >= a then v else before(b))
  }

  function AnnouncePair(p: Announcements, v: GasPrices, a: nat): Announcements
    requires a > 0
  {
    p.(pairs := (b: nat) => if b >= a then Merge(p.pairs(a - 1), v) else p.pairs(b))
  }

  /** What an accepted operation announces. Prices an inactive regime will use later, and the price
      of version 0, count at once; all others from their activation block on. */
  function Announce(cfg: Config, p: Announcements, now: Time, op: Op): Announcements {
    var a, version := Effective(cfg.genesis, now), Version(cfg, now);
    match op
    case OpSetVersion(v) => if v == 3 then AnnounceScalar(p, 0, 0) else p
    case OpSetFee(g, _) => if g.None? then p else AnnounceScalar(p, g.value, if version >= 1 then a else 0)
    case OpSetGasPrices(v) =>
      if version >= 3 then AnnouncePair(p, v, a) else p.(pairs := (b: nat) => Merge(p.pairs(b), v))
    case OpSetStoragePrice(x) =>
      if version >= 3 then AnnouncePair(p, GasPrices(None, Some(x)), a) else AnnounceScalar(p, x, a)
    case OpTransact => p
  }

  function AnnounceStep(cfg: Config, p: Announcements, s: (Time, Op)): Announcements {
    if Apply(cfg, s.0, s.1).Some? then Announce(cfg, p, s.0, s.1) else p
  }

  function AnnounceAll(cfg: Config, p: Announcements, steps: seq<(Time, Op)>): Announcements
    decreases |steps|
  {
    if steps == [] then p else AnnounceAll(Step(cfg, steps[0]), AnnounceStep(cfg, p, steps[0]), steps[1..])
  }

  /** From this block on both queues yield what was announced (the scalar one until version 3). */
  ghost predicate Shows(cfg: Config, p: Announcements, now: Time) {
    && (Version(cfg, now) < 3 ==>
          forall b: nat :: b >= BlockNum(cfg.genesis, now) ==> PriceAt(SCALAR, ScalarQueue(cfg), b) == p.scalar(b))
    && (forall b: nat :: b >= BlockNum(cfg.genesis, now) ==> PriceAt(PAIRS, PairQueue(cfg), b) == p.pairs(b))
  }

  lemma EmptyQueuePrice<V>(k: Kind<V>, q: Queue<V>, b: nat)
    requires q.entries == []
    ensures Process(k, q, b) == q
  {
  }

  lemma TimeShows(cfg: Config, p: Announcements, t: Time, u: Time)
    requires VersionOk(cfg, t) && Shows(cfg, p, t) && t <= u
    ensures Shows(cfg, p, u)
  {
    TimePasses(cfg, t, u);
    BlockNumMonotone(cfg.genesis, t, u);
  }

  lemma ScalarShows(cfg: Config, p: Announcements, v: nat, now: Time)
    requires Sound(cfg, now) && 1 <= Version(cfg, now) < 3 && Shows(cfg, p, now)
    ensures var r := EnqueueGasPrice(cfg, v, now);
            r.Some? && Shows(r.value, AnnounceScalar(p, v, Effective(cfg.genesis, now)), now)
  {
    EnqueueScalarSound(cfg, v, now);
    var cfg', a := EnqueueGasPrice(cfg, v, now).value, Effective(cfg.genesis, now);
    ActivationIs(cfg.genesis, now);
    KindsAreLawful();
    forall b: nat | b >= BlockNum(cfg.genesis, now)
      ensures PriceAt(SCALAR, ScalarQueue(cfg'), b) == AnnounceScalar(p, v, a).scalar(b)
    {
      EnqueueMeaning(SCALAR, ScalarQueue(cfg), v, a, b);
    }
  }

  lemma PairShows(cfg: Config, p: Announcements, v: GasPrices, now: Time)
    requires Sound(cfg, now) && Version(cfg, now) >= 3 && Shows(cfg, p, now)
    ensures var r := EnqueueGasPrices(cfg, v, now);
            r.Some? && Shows(r.value, AnnouncePair(p, v, Effective(cfg.genesis, now)), now)
  {
    EnqueuePairSound(cfg, v, now);
    var cfg', a := EnqueueGasPrices(cfg, v, now).value, Effective(cfg.genesis, now);
    ActivationIs(cfg.genesis, now);
    KindsAreLawful();
    ActivationMonotone(cfg.genesis, now, now);
    forall b: nat | b >= BlockNum(cfg.genesis, now)
      ensures PriceAt(PAIRS, PairQueue(cfg'), b) == AnnouncePair(p, v, a).pairs(b)
    {
      EnqueueMeaning(PAIRS, PairQueue(cfg), v, a, b);
    }
  }

  lemma ProcessShows(cfg: Config, p: Announcements, now: Time)
    requires Sound(cfg, now) && Shows(cfg, p, now)
    ensures Shows(ProcessPriceQueue(cfg, now), p, now)
  {
    var cfg', n := ProcessPriceQueue(cfg, now), BlockNum(cfg.genesis, now);
    forall b: nat | b >= n
      ensures PriceAt(PAIRS, PairQueue(cfg'), b) == p.pairs(b)
      ensures Version(cfg, now) < 3 ==> PriceAt(SCALAR, ScalarQueue(cfg'), b) == p.scalar(b)
    {
      if Version(cfg, now) >= 3 {
        ProcessEarlier(PAIRS, PairQueue(cfg), n, b);
        assert PairQueue(cfg') == Process(PAIRS, PairQueue(cfg), n);
      } else {
        ProcessEarlier(SCALAR, ScalarQueue(cfg), n, b);
        assert ScalarQueue(cfg') == Process(SCALAR, ScalarQueue(cfg), n);
        EmptyQueuePrice(PAIRS, PairQueue(cfg), b);
        EmptyQueuePrice(PAIRS, PairQueue(cfg'), b);
      }
    }
  }

  lemma PromoteShows(cfg: Config, p: Announcements, now: Time)
    requires VersionOk(cfg, now) && Shows(cfg, p, now)
    ensures Shows(MaybePromote(cfg, now), p, now)
  {
    PromoteOk(cfg, now);
    assert ScalarQueue(MaybePromote(cfg, now)) == ScalarQueue(cfg) && PairQueue(MaybePromote(cfg, now)) == PairQueue(cfg);
  }

  lemma SetVersionShows(cfg: Config, p: Announcements, v: nat, now: Time)
    requires Sound(cfg, now) && Shows(cfg, p, now) && SetVersion(cfg, v, now).Some?
    ensures Shows(SetVersion(cfg, v, now).value, Announce(cfg, p, now, OpSetVersion(v)), now)
  {
    var cfg' := SetVersion(cfg, v, now).value;
    PromoteOk(cfg, now);
    assert PairQueue(cfg') == PairQueue(cfg);
    if v == 3 {
      assert cfg'.prices == [];
      forall b: nat ensures PriceAt(SCALAR, ScalarQueue(cfg'), b) == 0 {
        EmptyQueuePrice(SCALAR, ScalarQueue(cfg'), b);
      }
    } else {
      assert ScalarQueue(cfg') == ScalarQueue(cfg);
    }
  }

  lemma SetFeeShows(cfg: Config, p: Announcements, g: Option<nat>, m: Option<nat>, now: Time)
    requires Sound(cfg, now) && Shows(cfg, p, now) && SetFeeParameters(cfg, g, m, now).Some?
    ensures Shows(SetFeeParameters(cfg, g, m, now).value, Announce(cfg, p, now, OpSetFee(g, m)), now)
  {
    var cfg', p' := SetFeeParameters(cfg, g, m, now).value, Announce(cfg, p, now, OpSetFee(g, m));
    if g.None? {
      assert ScalarQueue(cfg') == ScalarQueue(cfg) && PairQueue(cfg') == PairQueue(cfg);
    } else if Version(cfg, now) >= 1 {
      ScalarShows(cfg, p, g.value, now);
      var cfg1 := EnqueueGasPrice(cfg, g.value, now).value;
      assert ScalarQueue(cfg') == ScalarQueue(cfg1) && PairQueue(cfg') == PairQueue(cfg1);
    } else {
      assert PairQueue(cfg') == PairQueue(cfg);
      forall b: nat ensures PriceAt(SCALAR, ScalarQueue(cfg'), b) == g.value {
        EmptyQueuePrice(SCALAR, ScalarQueue(cfg'), b);
      }
    }
  }

  lemma SetGasPricesShows(cfg: Config, p: Announcements, v: GasPrices, now: Time)
    requires Sound(cfg, now) && Shows(cfg, p, now) && SetGasPrices(cfg, v, now).Some?
    ensures Shows(SetGasPrices(cfg, v, now).value, Announce(cfg, p, now, OpSetGasPrices(v)), now)
  {
    var cfg1, cfg' := MaybePromote(cfg, now), SetGasPrices(cfg, v, now).value;
    PromoteOk(cfg, now);
    PromoteShows(cfg, p, now);
    if Version(cfg, now) >= 3 {
      PairShows(cfg1, p, v, now);
    } else {
      assert ScalarQueue(cfg') == ScalarQueue(cfg1);
      forall b: nat | b >= BlockNum(cfg.genesis, now) ensures PriceAt(PAIRS, PairQueue(cfg'), b) == Merge(p.pairs(b), v) {
        EmptyQueuePrice(PAIRS, PairQueue(cfg1), b);
        EmptyQueuePrice(PAIRS, PairQueue(cfg'), b);
        assert PriceAt(PAIRS, PairQueue(cfg1), b) == p.pairs(b);
      }
    }
  }

  lemma ApplyShows(cfg: Config, p: Announcements, now: Time, op: Op)
    requires Sound(cfg, now) && Shows(cfg, p, now) && Apply(cfg, now, op).Some?
    ensures Shows(Apply(cfg, now, op).value, Announce(cfg, p, now, op), now)
  {
    match op {
      case OpSetVersion(v) => SetVersionShows(cfg, p, v, now);
      case OpSetFee(g, m) => SetFeeShows(cfg, p, g, m, now);
      case OpSetGasPrices(v) => SetGasPricesShows(cfg, p, v, now);
      case OpSetStoragePrice(x) =>
        if Version(cfg, now) >= 3 {
          PairShows(cfg, p, GasPrices(None, Some(x)), now);
        } else {
          ScalarShows(cfg, p, x, now);
        }
      case OpTransact =>
        ProcessSound(cfg, now);
        ProcessShows(cfg, p, now);
        PromoteShows(if Version(cfg, now) >= 1 then ProcessPriceQueue(cfg, now) else cfg, p, now);
    }
  }

  lemma PaidIsShown(cfg: Config, p: Announcements, now: Time)
    requires Sound(cfg, now) && Shows(cfg, p, now)
    ensures var b := BlockNum(cfg.genesis, now);
            PaidPrice(cfg, now) == if Version(cfg, now) >= 3 then Pair(p.pairs(b)) else Scalar(p.scalar(b))
  {
    var b := BlockNum(cfg.genesis, now);
    ProcessSound(cfg, now);
    PromoteOk(if Version(cfg, now) >= 1 then ProcessPriceQueue(cfg, now) else cfg, now);
    assert PriceAt(PAIRS, PairQueue(cfg), b) == p.pairs(b);
    if Version(cfg, now) < 3 {
      assert PriceAt(SCALAR, ScalarQueue(cfg), b) == p.scalar(b);
    }
  }

  /** In every run, disorderly ones included, a transaction pays the price announced for its block
      in the regime of the version in force. */
  lemma {:induction false} PaidAsAnnounced(cfg: Config, p: Announcements, now: Time, steps: seq<(Time, Op)>, later: Time)
    requires Sound(cfg, now) && Shows(cfg, p, now) && Ordered(now, steps) && EndOf(now, steps) <= later
    ensures var cfg', p', b := Run(cfg, steps), AnnounceAll(cfg, p, steps), BlockNum(cfg.genesis, later);
            PaidPrice(cfg', later) == if Version(cfg', later) >= 3 then Pair(p'.pairs(b)) else Scalar(p'.scalar(b))
    decreases |steps|
  {
    if steps == [] {
      TimePasses(cfg, now, later);
      TimeShows(cfg, p, now, later);
      PaidIsShown(cfg, p, later);
    } else {
      var t := steps[0].0;
      TimePasses(cfg, now, t);
      TimeShows(cfg, p, now, t);
      ApplySound(cfg, t, steps[0].1);
      ApplyVersion(cfg, t, steps[0].1);
      if Apply(cfg, t, steps[0].1).Some? {
        ApplyShows(cfg, p, t, steps[0].1);
      }
      assert EndOf(t, steps[1..]) == EndOf(now, steps);
      PaidAsAnnounced(Step(cfg, steps[0]), AnnounceStep(cfg, p, steps[0]), t, steps[1..], later);
    }
  }

  /** From initialisation on: version and price of every transaction, from the accepted calls alone. */
  lemma PricesFromInit(genesis: nat, gasPrice: nat, minerCut: nat, now: Time, steps: seq<(Time, Op)>, later: Time)
    requires minerCut <= NINETY_PERCENT && Ordered(now, steps) && EndOf(now, steps) <= later
    ensures var cfg := InitConfig(genesis, gasPrice, minerCut);
            var p := AnnounceAll(cfg, Announcements(_ => gasPrice, _ => GasPrices(None, None)), steps);
            var b := BlockNum(genesis, later);
            PaidPrice(Run(cfg, steps), later) ==
            if Seen(0, VersionLog(cfg, [], steps), b) >= 3 then Pair(p.pairs(b)) else Scalar(p.scalar(b))
  {
    var cfg := InitConfig(genesis, gasPrice, minerCut);
    var p := Announcements(_ => gasPrice, _ => GasPrices(None, None));
    InitOk(genesis, gasPrice, minerCut, now);
    assert Shows(cfg, p, now);
    VersionTimeline(cfg, [], now, steps, later);
    PaidAsAnnounced(cfg, p, now, steps, later);
  }

  // ---- when a price takes effect, in seconds ----

  /** What the queues of a configuration will yield, as announcements. */
  function Yields(cfg: Config): Announcements {
    Announcements((b: nat) => PriceAt(SCALAR, ScalarQueue(cfg), b), (b: nat) => PriceAt(PAIRS, PairQueue(cfg), b))
  }

  lemma PaidLater(cfg: Config, p: Announcements, t: Time, u: Time)
    requires Sound(cfg, t) && Shows(cfg, p, t) && t <= u
    ensures var b := BlockNum(cfg.genesis, u);
            PaidPrice(cfg, u) == if Version(cfg, u) >= 3 then Pair(p.pairs(b)) else Scalar(p.scalar(b))
  {
    TimePasses(cfg, t, u);
    TimeShows(cfg, p, t, u);
    PaidIsShown(cfg, p, u);
  }

  /** A scalar price set in second `s` is the price from second `s + 181` on and changes nothing before,
      as long as version 3 is not in force. */
  lemma ScalarTakesEffect(cfg: Config, v: nat, t: Time, u: Time)
    requires Sound(cfg, t) && 1 <= Version(cfg, t) < 3 && cfg.genesis <= t / 1_000_000
    requires t <= u && Version(cfg, u) < 3
    ensures var r := EnqueueGasPrice(cfg, v, t);
            r.Some? && PaidPrice(r.value, u) == if u / 1_000_000 >= t / 1_000_000 + 181 then Scalar(v) else PaidPrice(cfg, u)
  {
    var p, a := Yields(cfg), Effective(cfg.genesis, t);
    ScalarShows(cfg, p, v, t);
    EnqueueScalarSound(cfg, v, t);
    PaidLater(cfg, p, t, u);
    PaidLater(EnqueueGasPrice(cfg, v, t).value, AnnounceScalar(p, v, a), t, u);
    InSeconds(cfg.genesis, t, u);
  }

  lemma ScalarAnnounced(cfg: Config, v: nat, t: Time)
    requires Sound(cfg, t) && 1 <= Version(cfg, t) < 3 && cfg.genesis <= t / 1_000_000
    ensures EnqueueGasPrice(cfg, v, t).Some?
    ensures forall u: Time :: t <= u && Version(cfg, u) < 3 ==>
              PaidPrice(EnqueueGasPrice(cfg, v, t).value, u) ==
              if u / 1_000_000 >= t / 1_000_000 + 181 then Scalar(v) else PaidPrice(cfg, u)
  {
    ScalarTakesEffect(cfg, v, t, t);
    forall u: Time | t <= u && Version(cfg, u) < 3
      ensures PaidPrice(EnqueueGasPrice(cfg, v, t).value, u) ==
              if u / 1_000_000 >= t / 1_000_000 + 181 then Scalar(v) else PaidPrice(cfg, u)
    {
      ScalarTakesEffect(cfg, v, t, u);
    }
  }

  lemma PaidPair(cfg: Config, p: Announcements, t: Time, u: Time)
    requires Sound(cfg, t) && Version(cfg, t) >= 3 && Shows(cfg, p, t) && t <= u
    ensures PaidPrice(cfg, u) == Pair(p.pairs(BlockNum(cfg.genesis, u)))
  {
    TimePasses(cfg, t, u);
    PaidLater(cfg, p, t, u);
  }

  lemma PairAnnounced(cfg: Config, v: GasPrices, t: Time, u: Time)
    requires Sound(cfg, t) && Version(cfg, t) >= 3 && t <= u
    ensures var r := EnqueueGasPrices(cfg, v, t);
            r.Some? && PaidPrice(r.value, u) == Pair(AnnouncePair(Yields(cfg), v, Effective(cfg.genesis, t)).pairs(BlockNum(cfg.genesis, u)))
  {
    PairShows(cfg, Yields(cfg), v, t);
    EnqueuePairSound(cfg, v, t);
    PaidPair(EnqueueGasPrices(cfg, v, t).value, AnnouncePair(Yields(cfg), v, Effective(cfg.genesis, t)), t, u);
  }

  /** From second `s + 181` on the pair is merged into the price of second `s + 180`; nothing changes before. */
  predicate MergedInTime(cfg: Config, cfg': Config, v: GasPrices, t: Time, u: Time) {
    if u / 1_000_000 >= t / 1_000_000 + 181 then
      var before := PaidPrice(cfg, t + 180 * 1_000_000);
      before.Pair? && PaidPrice(cfg', u) == Pair(Merge(before.prices, v))
    else PaidPrice(cfg', u) == PaidPrice(cfg, u)
  }

  lemma PairAfter(cfg: Config, v: GasPrices, t: Time, u: Time)
    requires Sound(cfg, t) && Version(cfg, t) >= 3 && cfg.genesis <= t / 1_000_000
    requires t <= u && u / 1_000_000 >= t / 1_000_000 + 181
    ensures EnqueueGasPrices(cfg, v, t).Some?
    ensures var before := PaidPrice(cfg, t + 180 * 1_000_000);
            before.Pair? && PaidPrice(EnqueueGasPrices(cfg, v, t).value, u) == Pair(Merge(before.prices, v))
  {
    PairAnnounced(cfg, v, t, u);
    InSeconds(cfg.genesis, t, u);
    PaidPair(cfg, Yields(cfg), t, t + 180 * 1_000_000);
  }

  lemma PairBefore(cfg: Config, v: GasPrices, t: Time, u: Time)
    requires Sound(cfg, t) && Version(cfg, t) >= 3 && cfg.genesis <= t / 1_000_000
    requires t <= u && u / 1_000_000 < t / 1_000_000 + 181
    ensures EnqueueGasPrices(cfg, v, t).Some? && PaidPrice(EnqueueGasPrices(cfg, v, t).value, u) == PaidPrice(cfg, u)
  {
    PairAnnounced(cfg, v, t, u);
    InSeconds(cfg.genesis, t, u);
    PaidPair(cfg, Yields(cfg), t, u);
  }

  /** When a pair enqueued in second `s` takes effect. */
  lemma PairTakesEffect(cfg: Config, v: GasPrices, t: Time, u: Time)
    requires Sound(cfg, t) && Version(cfg, t) >= 3 && cfg.genesis <= t / 1_000_000 && t <= u
    ensures EnqueueGasPrices(cfg, v, t).Some? && MergedInTime(cfg, EnqueueGasPrices(cfg, v, t).value, v, t, u)
  {
    if u / 1_000_000 >= t / 1_000_000 + 181 {
      PairAfter(cfg, v, t, u);
    } else {
      PairBefore(cfg, v, t, u);
    }
  }

  lemma PairTakesEffectAnytime(cfg: Config, v: GasPrices, t: Time)
    requires Sound(cfg, t) && Version(cfg, t) >= 3 && cfg.genesis <= t / 1_000_000
    ensures EnqueueGasPrices(cfg, v, t).Some?
    ensures forall u: Time :: t <= u ==> MergedInTime(cfg, EnqueueGasPrices(cfg, v, t).value, v, t, u)
  {
    PairTakesEffect(cfg, v, t, t);
    forall u: Time | t <= u ensures MergedInTime(cfg, EnqueueGasPrices(cfg, v, t).value, v, t, u) {
      PairTakesEffect(cfg, v, t, u);
    }
  }

  /** The operations that enqueue: which are accepted, and that they do just that. */
  lemma EnqueueingOps(cfg: Config, now: Time, v: nat, pair: GasPrices)
    requires Sound(cfg, now)
    ensures 1 <= Version(cfg, now) < 3 ==> Apply(cfg, now, OpSetFee(Some(v), None)) == EnqueueGasPrice(cfg, v, now)
    ensures 1 <= Version(cfg, now) < 3 && v > 0 ==> Apply(cfg, now, OpSetStoragePrice(v)) == EnqueueGasPrice(cfg, v, now)
    ensures Version(cfg, now) >= 3 && v > 0 ==>
              Apply(cfg, now, OpSetStoragePrice(v)) == EnqueueGasPrices(cfg, GasPrices(None, Some(v)), now)
    ensures Version(cfg, now) >= 3 && pair != GasPrices(None, None) && pair.storage != Some(0) ==>
              Apply(cfg, now, OpSetGasPrices(pair)) == EnqueueGasPrices(MaybePromote(cfg, now), pair, now)
  {
    PromoteOk(cfg, now);
    if 1 <= Version(cfg, now) < 3 {
      EnqueueScalarSound(cfg, v, now);
    }
  }

  // ---- which calls are accepted, and the miner cut in force ----

  /** Exactly which calls the configuration accepts. */
  lemma AcceptedWhen(cfg: Config, now: Time, op: Op)
    requires Sound(cfg, now)
    ensures Apply(cfg, now, op).Some? <==>
            match op
            case OpSetVersion(v) =>
              Version(cfg, now) < v <= 3 &&
              (v == 3 ==> cfg.prices == [] && cfg.gasPrices.storage.Some? && cfg.gasPrices.storage.value > 0)
            case OpSetFee(g, m) => (g.Some? ==> Version(cfg, now) < 3) && (m.Some? ==> Version(cfg, now) == 0 && m.value <= 90_000)
            case OpSetGasPrices(p) => p != GasPrices(None, None) && p.storage != Some(0)
            case OpSetStoragePrice(p) => p > 0 && Version(cfg, now) >= 1
            case OpTransact => true
  {
    PromoteOk(cfg, now);
    match op {
      case OpSetVersion(v) =>
      case OpSetFee(g, m) =>
        if g.Some? && 1 <= Version(cfg, now) < 3 {
          EnqueueScalarSound(cfg, g.value, now);
        }
      case OpSetGasPrices(p) =>
        if Version(cfg, now) >= 3 {
          EnqueuePairSound(MaybePromote(cfg, now), p, now);
        }
      case OpSetStoragePrice(p) =>
        if Version(cfg, now) >= 3 {
          EnqueuePairSound(cfg, GasPrices(None, Some(p)), now);
        } else if Version(cfg, now) >= 1 {
          EnqueueScalarSound(cfg, p, now);
        }
      case OpTransact =>
    }
  }

  /** The last miner cut accepted. */
  function LastCut(cfg: Config, cut: nat, steps: seq<(Time, Op)>): nat
    decreases |steps|
  {
    if steps == [] then cut
    else
      var s := steps[0];
      LastCut(Step(cfg, s),
              if s.1.OpSetFee? && s.1.minerCut.Some? && Apply(cfg, s.0, s.1).Some? then s.1.minerCut.value else cut,
              steps[1..])
  }

  /** The stored cut is 0 once a version has been promoted and the last one accepted until then. */
  predicate CutIs(cfg: Config, cut: nat) {
    cfg.minerCut == if cfg.version.cached >= 1 then 0 else cut
  }

  lemma StepCut(cfg: Config, now: Time, op: Op, cut: nat)
    requires VersionOk(cfg, now) && CutIs(cfg, cut)
    ensures CutIs(Step(cfg, (now, op)), if op.OpSetFee? && op.minerCut.Some? && Apply(cfg, now, op).Some? then op.minerCut.value else cut)
  {
  }

  /** Over every run, a transaction shares gas fees by the last cut accepted in version 0, and not at all
      from version 1 on. */
  lemma {:induction false} CutTimeline(cfg: Config, cut: nat, now: Time, steps: seq<(Time, Op)>, later: Time)
    requires VersionOk(cfg, now) && MinerCutOk(cfg) && CutIs(cfg, cut) && Ordered(now, steps) && EndOf(now, steps) <= later
    ensures Transact(Run(cfg, steps), later).minerCut ==
            if Version(Run(cfg, steps), later) >= 1 then 0 else LastCut(cfg, cut, steps)
    decreases |steps|
  {
    if steps == [] {
      TimePasses(cfg, now, later);
      StepCut(cfg, later, OpTransact, cut);
      PromoteOk(if Version(cfg, later) >= 1 then ProcessPriceQueue(cfg, later) else cfg, later);
    } else {
      var s := steps[0];
      TimePasses(cfg, now, s.0);
      ApplyVersion(cfg, s.0, s.1);
      StepCut(cfg, s.0, s.1, cut);
      assert EndOf(s.0, steps[1..]) == EndOf(now, steps);
      CutTimeline(Step(cfg, s),
                  if s.1.OpSetFee? && s.1.minerCut.Some? && Apply(cfg, s.0, s.1).Some? then s.1.minerCut.value else cut,
                  s.0, steps[1..], later);
    }
  }

  // ---- setversion(3) takes the scalar price away early ----

  /** Setting a version leaves the scalar price in force alone exactly unless it is version 3
      and the price was not 0 already: that one zeroes the price at once, though version 3 only
      takes over in the next block. */
  lemma SetVersionAndPrice(cfg: Config, v: nat, now: Time)
    requires VersionOk(cfg, now) && SetVersion(cfg, v, now).Some?
    ensures var cfg' := SetVersion(cfg, v, now).value;
            var b := BlockNum(cfg.genesis, now);
            && Version(cfg', now) == Version(cfg, now)
            && (PriceAt(SCALAR, ScalarQueue(cfg'), b) == PriceAt(SCALAR, ScalarQueue(cfg), b) <==>
                v != 3 || cfg.gasPrice == 0)
  {
    PromoteOk(cfg, now);
  }

  /** Version 1 in one second, version 3 and then a price in the next: transactions of that second
      still run version 1 but their price has gone from 10 to 0, and the new price leaves a row
      that only the other queue's front knows of. */
  lemma PendingRegimeWitness()
    ensures var t, u: Time := 2_000 * SECOND, 2_001 * SECOND;
            var cfg := Run(InitConfig(1_000, 10, 0), [(t, OpSetGasPrices(GasPrices(None, Some(5)))), (t, OpSetVersion(1))]);
            var cfg3 := Run(cfg, [(u, OpSetVersion(3))]);
            var cfg7 := Run(cfg3, [(u, OpSetFee(Some(7), None))]);
            && PaidPrice(cfg, u) == Scalar(10)
            && Version(cfg3, u) == 1 && PaidPrice(cfg3, u) == Scalar(0)
            && ConfigOk(cfg3, u) && !ConfigOk(cfg7, u)
  {
    var t, u: Time := 2_000 * SECOND, 2_001 * SECOND;
    var cfg0 := InitConfig(1_000, 10, 0);
    var cfg1 := cfg0.(gasPrices := GasPrices(None, Some(5)));
    var cfg := cfg1.(version := Promoter(Some(Pending(1, t)), 0));
    assert Apply(cfg0, t, OpSetGasPrices(GasPrices(None, Some(5)))) == Some(cfg1);
    assert Apply(cfg1, t, OpSetVersion(1)) == Some(cfg);
    RunTwo(cfg0, (t, OpSetGasPrices(GasPrices(None, Some(5)))), (t, OpSetVersion(1)));
    var cfg3 := cfg1.(version := Promoter(Some(Pending(3, u)), 1), gasPrice := 0);
    assert Apply(cfg, u, OpSetVersion(3)) == Some(cfg3);
    RunOne(cfg, (u, OpSetVersion(3)));
    RunOne(cfg3, (u, OpSetFee(Some(7), None)));
    PendingRegimeBreaks(cfg3, 7, u);
  }

  lemma RunOne(cfg: Config, s: (Time, Op))
    ensures Run(cfg, [s]) == Step(cfg, s)
  {
    assert [s][1..] == [];
  }

  lemma RunTwo(cfg: Config, s: (Time, Op), s': (Time, Op))
    ensures Run(cfg, [s, s']) == Step(Step(cfg, s), s')
  {
    assert [s, s'][1..] == [s'];
    RunOne(Step(cfg, s), s');
  }

  // ---- the wrapper as it is written ----

  class ConfigWrapper {
    const genesisTime: nat
    var gasPrice: nat
    var gasPrices: GasPrices
    var minerCut: nat
    var evmVersion: ValuePromoter<nat>
    var queueFrontBlock: nat
    var priceQueue: seq<Entry<nat>>
    var pricesQueue: seq<Entry<GasPrices>>

    ghost function View(): Config
      reads this, evmVersion
    {
      Config(genesisTime, gasPrice, gasPrices, minerCut, evmVersion.View(), queueFrontBlock, priceQueue, pricesQueue)
    }

    constructor (genesis: nat, gasPrice: nat, minerCut: nat)
      ensures View() == InitConfig(genesis, gasPrice, minerCut) && fresh(evmVersion)
    {
      genesisTime := genesis;
      this.gasPrice, gasPrices, this.minerCut := gasPrice, GasPrices(None, None), minerCut;
      queueFrontBlock, priceQueue, pricesQueue := 0, [], [];
      evmVersion := new ValuePromoter(0);
    }

    method EnqueuePrice(v: nat, now: Time) returns (ok: bool)
      modifies this`queueFrontBlock, this`priceQueue
      ensures ok <==> EnqueueGasPrice(old(View()), v, now).Some?
      ensures ok ==> Some(View()) == EnqueueGasPrice(old(View()), v, now)
      ensures old(Sound(View(), now) && 1 <= Version(View(), now) < 3) && genesisTime <= now / 1_000_000 ==>
                ok && forall u: Time :: now <= u && Version(old(View()), u) < 3 ==>
                  PaidPrice(View(), u) == if u / 1_000_000 >= now / 1_000_000 + 181 then Scalar(v) else PaidPrice(old(View()), u)
    {
      ghost var before := View();
      if Sound(before, now) && 1 <= Version(before, now) < 3 && genesisTime <= now / 1_000_000 {
        ScalarAnnounced(before, v, now);
      }
      var block := BlockNum(genesisTime, now + GRACE_PERIOD) + 1;
      var q;
      ok, q := EnqueueRow(SCALAR, Queue(queueFrontBlock, priceQueue, gasPrice), v, block);
      queueFrontBlock, priceQueue := q.front, q.entries;
    }

    method EnqueuePrices(v: GasPrices, now: Time) returns (ok: bool)
      modifies this`queueFrontBlock, this`pricesQueue
      ensures ok <==> EnqueueGasPrices(old(View()), v, now).Some?
      ensures ok ==> Some(View()) == EnqueueGasPrices(old(View()), v, now)
      ensures old(Sound(View(), now) && Version(View(), now) >= 3) && genesisTime <= now / 1_000_000 ==>
                ok && forall u: Time :: now <= u ==> MergedInTime(old(View()), View(), v, now, u)
    {
      ghost var before := View();
      if Sound(before, now) && Version(before, now) >= 3 && genesisTime <= now / 1_000_000 {
        PairTakesEffectAnytime(before, v, now);
      }
      var block := BlockNum(genesisTime, now + GRACE_PERIOD) + 1;
      var q;
      ok, q := EnqueueRow(PAIRS, Queue(queueFrontBlock, pricesQueue, gasPrices), v, block);
      queueFrontBlock, pricesQueue := q.front, q.entries;
    }

    method SetPrices(v: GasPrices)
      modifies this`gasPrices
      ensures gasPrices == Merge(old(gasPrices), v)
    {
      if v.overhead.Some? {
        gasPrices := gasPrices.(overhead := v.overhead);
      }
      if v.storage.Some? {
        gasPrices := gasPrices.(storage := v.storage);
      }
    }

    method ProcessQueues(now: Time)
      modifies this`gasPrice, this`gasPrices, this`queueFrontBlock, this`priceQueue, this`pricesQueue
      ensures View() == ProcessPriceQueue(old(View()), now)
    {
      var current := BlockNum(genesisTime, now);
      if GetValue(evmVersion.View(), genesisTime, now) >= 3 {
        var q := ProcessRows(PAIRS, Queue(queueFrontBlock, pricesQueue, gasPrices), current);
        queueFrontBlock, pricesQueue, gasPrices := q.front, q.entries, q.current;
      } else {
        var q := ProcessRows(SCALAR, Queue(queueFrontBlock, priceQueue, gasPrice), current);
        queueFrontBlock, priceQueue, gasPrice := q.front, q.entries, q.current;
      }
    }

    method GetEvmVersionAndMaybePromote(now: Time) returns (version: nat)
      modifies this`minerCut, evmVersion
      ensures View() == MaybePromote(old(View()), now)
      ensures version == Version(old(View()), now)
    {
      var promoted;
      version, promoted := evmVersion.GetValueAndMaybePromote(genesisTime, now);
      if promoted {
        if version >= 1 && minerCut != 0 {
          minerCut := 0;
        }
      }
    }

    method SetEvmVersion(v: nat, now: Time) returns (ok: bool)
      modifies this, evmVersion
      ensures evmVersion == old(evmVersion)
      ensures ok <==> SetVersion(old(View()), v, now).Some?
      ensures ok ==> Some(View()) == SetVersion(old(View()), v, now)
    {
      if v > MAX_VERSION || (v == 3 && (queueFrontBlock != 0 || gasPrices.storage.GetOr(0) == 0)) {
        return false;
      }
      var current := GetEvmVersionAndMaybePromote(now);
      if v <= current {
        return false;
      }
      evmVersion.UpdateWith((_: nat) => v, genesisTime, now);
      if v == 3 {
        gasPrice := 0;
      }
      return true;
    }

    /** `setfeeparams` without the bridge fee. */
    method SetFees(price: Option<nat>, cut: Option<nat>, now: Time) returns (ok: bool)
      modifies this`gasPrice, this`minerCut, this`queueFrontBlock, this`priceQueue
      ensures ok <==> SetFeeParameters(old(View()), price, cut, now).Some?
      ensures ok ==> Some(View()) == SetFeeParameters(old(View()), price, cut, now)
    {
      var version := GetValue(evmVersion.View(), genesisTime, now);
      if price.Some? {
        if version >= 3 {
          return false;
        } else if version >= 1 {
          ok := EnqueuePrice(price.value, now);
          if !ok {
            return;
          }
        } else {
          gasPrice := price.value;
        }
      }
      if cut.Some? {
        if version != 0 || cut.value > NINETY_PERCENT {
          return false;
        }
        minerCut := cut.value;
      }
      return true;
    }

    /** `setgasprices`. */
    method SetOrEnqueuePrices(v: GasPrices, now: Time) returns (ok: bool)
      modifies this, evmVersion
      ensures evmVersion == old(evmVersion)
      ensures ok <==> SetGasPrices(old(View()), v, now).Some?
      ensures ok ==> Some(View()) == SetGasPrices(old(View()), v, now)
    {
      if (v.overhead.None? && v.storage.None?) || v.storage == Some(0) {
        return false;
      }
      var version := GetEvmVersionAndMaybePromote(now);
      if version >= 3 {
        ok := EnqueuePrices(v, now);
      } else {
        SetPrices(v);
        ok := true;
      }
    }

    /** The scheduler's part of a transaction: due prices first, then the version. */
    method BeginTransaction(now: Time)
      modifies this, evmVersion
      ensures evmVersion == old(evmVersion)
      ensures View() == Transact(old(View()), now)
    {
      if GetValue(evmVersion.View(), genesisTime, now) >= 1 {
        ProcessQueues(now);
      }
      var version := GetEvmVersionAndMaybePromote(now);
    }
  }
}
