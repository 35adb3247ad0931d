/** The option contract of internal/benchmark/options.go, from decoded JSON payloads on. */
module Options {
  import opened Wrappers

  datatype Profile = Read | Write | Transaction | Join | Lock | Mixed | OtherProfile(name: string)

  /** Unset is the empty string. */
  datatype TransactionMix = Unset | Balanced | ReadHeavy | WriteHeavy | OtherMix(name: string)

  datatype StartOptions = StartOptions(
    scale: int,
    clients: int,
    durationSeconds: int,
    warmupSeconds: int,
    reset: bool,
    profile: Profile,
    readPercent: Option<int>,
    transactionMix: TransactionMix,
    targetTPS: Option<int>)

  datatype AlterOptions = AlterOptions(clients: Option<int>, targetTPS: Option<int>)

  datatype StartPayload = StartPayload(
    scale: Option<int>,
    clients: Option<int>,
    durationSeconds: Option<int>,
    warmupSeconds: Option<int>,
    reset: Option<bool>,
    profile: Option<Profile>,
    readPercent: Option<int>,
    transactionMix: Option<TransactionMix>,
    targetTPS: Option<int>)

  datatype OptionError =
    | ScaleTooSmall
    | ClientsTooSmall
    | DurationTooSmall
    | WarmupNegative
    | WarmupNotLessThanDuration
    | UnknownProfile
    | ReadPercentUnsupported
    | ReadPercentOutOfRange
    | TransactionMixUnsupported
    | UnknownTransactionMix
    | LockNeedsTwoClients
    | TargetTPSTooSmall
    | EmptyAlter

  const DEFAULT_SCALE := 10
  const DEFAULT_CLIENTS := 1
  const DEFAULT_DURATION_SECONDS := 60
  const DEFAULT_WARMUP_SECONDS := 10
  const DEFAULT_READ_PERCENT := 80

  /** validateStartOptions: the first check that fails. */
  function ValidateStart(o: StartOptions): (error: Option<OptionError>) {
    if o.scale < 1 then Some(ScaleTooSmall)
    else if o.clients < 1 then Some(ClientsTooSmall)
    else if o.durationSeconds < 1 then Some(DurationTooSmall)
    else if o.warmupSeconds < 0 then Some(WarmupNegative)
    else if o.warmupSeconds >= o.durationSeconds then Some(WarmupNotLessThanDuration)
    else if o.profile.OtherProfile? then Some(UnknownProfile)
    else if o.readPercent.Some? && !o.profile.Mixed? then Some(ReadPercentUnsupported)
    else if o.readPercent.Some? && !(0 <= o.readPercent.value <= 100) then Some(ReadPercentOutOfRange)
    else if !o.transactionMix.Unset? && !o.profile.Transaction? then Some(TransactionMixUnsupported)
    else if o.transactionMix.OtherMix? then Some(UnknownTransactionMix)
    else if o.profile.Lock? && o.clients < 2 then Some(LockNeedsTwoClients)
    else if o.targetTPS.Some? && o.targetTPS.value < 1 then Some(TargetTPSTooSmall)
    else None
  }

  /** validateAlterOptions; activeRun.Alter makes the same three checks. */
  function ValidateAlter(a: AlterOptions): (error: Option<OptionError>) {
    if a.clients.None? && a.targetTPS.None? then Some(EmptyAlter)
    else if a.clients.Some? && a.clients.value < 1 then Some(ClientsTooSmall)
    else if a.targetTPS.Some? && a.targetTPS.value < 1 then Some(TargetTPSTooSmall)
    else None
  }

  function OrElse<T>(given: Option<T>, fallback: T): (v: T) {
    if given.Some? then given.value else fallback
  }

  /** DecodeStartOptions, after the JSON text has been decoded. */
  function DecodeStart(p: StartPayload): (r: Result<StartOptions, OptionError>) {
    var profile := OrElse(p.profile, Mixed);
    var options := StartOptions(
      OrElse(p.scale, DEFAULT_SCALE),
      OrElse(p.clients, DEFAULT_CLIENTS),
      OrElse(p.durationSeconds, DEFAULT_DURATION_SECONDS),
      OrElse(p.warmupSeconds, DEFAULT_WARMUP_SECONDS),
      OrElse(p.reset, false),
      profile,
      if p.readPercent.Some? then p.readPercent
      else if profile.Mixed? then Some(DEFAULT_READ_PERCENT) else None,
      if p.transactionMix.Some? then p.transactionMix.value
      else if profile.Transaction? then Balanced else Unset,
      p.targetTPS);
    match ValidateStart(options)
    case Some(e) => Err(e)
    case None => Ok(options)
  }

  /** The options with the fields of an alter request replaced. */
  function Overwrite(o: StartOptions, a: AlterOptions): (r: StartOptions) {
    o.(clients := OrElse(a.clients, o.clients),
       targetTPS := if a.targetTPS.Some? then a.targetTPS else o.targetTPS)
  }

  /** StartOptions.ApplyAlter. */
  function ApplyAlter(o: StartOptions, a: AlterOptions): (r: Result<StartOptions, OptionError>) {
    match ValidateAlter(a)
    case Some(e) => Err(e)
    case None =>
      match ValidateStart(Overwrite(o, a))
      case Some(e) => Err(e)
      case None => Ok(Overwrite(o, a))
  }

  // ----- what the checks mean

  ghost predicate ValidStart(o: StartOptions) {
    && o.scale >= 1 && o.clients >= 1 && o.durationSeconds >= 1
    && 0 <= o.warmupSeconds < o.durationSeconds
    && !o.profile.OtherProfile?
    && (o.readPercent.Some? ==> o.profile.Mixed? && 0 <= o.readPercent.value <= 100)
    && (o.transactionMix != Unset ==> o.profile.Transaction? && !o.transactionMix.OtherMix?)
    && (o.profile.Lock? ==> o.clients >= 2)
    && (o.targetTPS.Some? ==> o.targetTPS.value >= 1)
  }

  ghost predicate ValidAlter(a: AlterOptions) {
    && (a.clients.Some? || a.targetTPS.Some?)
    && (a.clients.Some? ==> a.clients.value >= 1)
    && (a.targetTPS.Some? ==> a.targetTPS.value >= 1)
  }

  /** Everything an alter request cannot change. */
  ghost predicate SameButAlterable(o: StartOptions, r: StartOptions) {
    r == o.(clients := r.clients, targetTPS := r.targetTPS)
  }

  /** The payload that spells every option out. */
  function PayloadOf(o: StartOptions): (p: StartPayload) {
    StartPayload(Some(o.scale), Some(o.clients), Some(o.durationSeconds), Some(o.warmupSeconds), Some(o.reset),
                 Some(o.profile), o.readPercent,
                 if o.transactionMix.Unset? then None else Some(o.transactionMix), o.targetTPS)
  }

  /**
    Spelling every option out decodes to the same options exactly when they are valid, a mixed
    profile carries a read percentage and a transaction profile a mix.
   */
  lemma {:induction false} DecodeRoundTrip(o: StartOptions)
    ensures DecodeStart(PayloadOf(o)) == Ok(o)
       <==> ValidStart(o) && (o.profile.Mixed? ==> o.readPercent.Some?)
                          && (o.profile.Transaction? ==> o.transactionMix != Unset)
  {
  }

  /** The options of an empty payload. */
  lemma {:induction false} DecodeEmpty()
    ensures DecodeStart(StartPayload(None, None, None, None, None, None, None, None, None))
         == Ok(StartOptions(10, 1, 60, 10, false, Mixed, Some(80), Unset, None))
  {
  }

  /**
    Every field of a decoded payload is the one given, or else its default: the read percentage
    and the mix default only for the profile they belong to.
   */
  lemma {:induction false} DecodeKeeps(p: StartPayload)
    requires DecodeStart(p).Ok?
    ensures var o := DecodeStart(p).value;
            && (match p.scale case Some(v) => o.scale == v case None => o.scale == 10)
            && (match p.clients case Some(v) => o.clients == v case None => o.clients == 1)
            && (match p.durationSeconds case Some(v) => o.durationSeconds == v case None => o.durationSeconds == 60)
            && (match p.warmupSeconds case Some(v) => o.warmupSeconds == v case None => o.warmupSeconds == 10)
            && (match p.reset case Some(v) => o.reset == v case None => !o.reset)
            && (match p.profile case Some(v) => o.profile == v case None => o.profile == Mixed)
            && (match p.readPercent case Some(v) => o.readPercent == Some(v)
                case None => o.readPercent == if o.profile == Mixed then Some(80) else None)
            && (match p.transactionMix case Some(v) => o.transactionMix == v
                case None => o.transactionMix == if o.profile == Transaction then Balanced else Unset)
            && o.targetTPS == p.targetTPS
  {
  }

  /** What each error complains of. */
  predicate Violates(o: StartOptions, e: OptionError) {
    match e
    case ScaleTooSmall => o.scale < 1
    case ClientsTooSmall => o.clients < 1
    case DurationTooSmall => o.durationSeconds < 1
    case WarmupNegative => o.warmupSeconds < 0
    case WarmupNotLessThanDuration => o.warmupSeconds >= o.durationSeconds
    case UnknownProfile => o.profile.OtherProfile?
    case ReadPercentUnsupported => o.readPercent.Some? && o.profile != Mixed
    case ReadPercentOutOfRange => o.readPercent.Some? && (o.readPercent.value < 0 || o.readPercent.value > 100)
    case TransactionMixUnsupported => o.transactionMix != Unset && o.profile != Transaction
    case UnknownTransactionMix => o.transactionMix.OtherMix?
    case LockNeedsTwoClients => o.profile == Lock && o.clients < 2
    case TargetTPSTooSmall => o.targetTPS.Some? && o.targetTPS.value < 1
    case EmptyAlter => false
  }

  /** The errors in the order of the checks. */
  const CHECKS: seq<OptionError> := [
    ScaleTooSmall, ClientsTooSmall, DurationTooSmall, WarmupNegative, WarmupNotLessThanDuration, UnknownProfile,
    ReadPercentUnsupported, ReadPercentOutOfRange, TransactionMixUnsupported, UnknownTransactionMix,
    LockNeedsTwoClients, TargetTPSTooSmall]

  /** The error reported is the first check that the options violate; there is none iff they violate none. */
  lemma {:induction false} FirstViolation(o: StartOptions, i: nat)
    requires i < |CHECKS|
    ensures ValidateStart(o) == Some(CHECKS[i])
       <==> Violates(o, CHECKS[i]) && forall j :: 0 <= j < i ==> !Violates(o, CHECKS[j])
    ensures ValidateStart(o) == None <==> forall j :: 0 <= j < |CHECKS| ==> !Violates(o, CHECKS[j])
  {
    assert CHECKS[0] == ScaleTooSmall;
    assert CHECKS[1] == ClientsTooSmall;
    assert CHECKS[2] == DurationTooSmall;
    assert CHECKS[3] == WarmupNegative;
    assert CHECKS[4] == WarmupNotLessThanDuration;
    assert CHECKS[5] == UnknownProfile;
    assert CHECKS[6] == ReadPercentUnsupported;
    assert CHECKS[7] == ReadPercentOutOfRange;
    assert CHECKS[8] == TransactionMixUnsupported;
    assert CHECKS[9] == UnknownTransactionMix;
    assert CHECKS[10] == LockNeedsTwoClients;
    assert CHECKS[11] == TargetTPSTooSmall;
  }

  lemma {:induction false} DecodedIsValid(p: StartPayload)
    ensures DecodeStart(p).Ok? ==> ValidStart(DecodeStart(p).value)
    ensures DecodeStart(p).Ok? ==> DecodeStart(p).value.profile.Mixed? ==> DecodeStart(p).value.readPercent.Some?
  {
  }

  /**
    Altering valid options is accepted exactly when the request is valid and does not take a lock
    profile below two clients; the result is valid and differs at most in clients and target_tps.
   */
  lemma {:induction false} AlterExactly(o: StartOptions, a: AlterOptions)
    requires ValidStart(o)
    ensures ApplyAlter(o, a).Ok? <==> ValidAlter(a) && (o.profile.Lock? && a.clients.Some? ==> a.clients.value >= 2)
    ensures ApplyAlter(o, a).Ok? ==>
              ValidStart(ApplyAlter(o, a).value) && SameButAlterable(o, ApplyAlter(o, a).value)
  {
  }

  /** The last value given for a field in a history of requests, or the initial one. */
  function LastClients(initial: int, history: seq<AlterOptions>): (c: int) {
    if history == [] then initial
    else OrElse(history[|history| - 1].clients, LastClients(initial, history[..|history| - 1]))
  }

  function LastTPS(initial: Option<int>, history: seq<AlterOptions>): (t: Option<int>) {
    if history == [] then initial
    else
      var last := history[|history| - 1].targetTPS;
      if last.Some? then last else LastTPS(initial, history[..|history| - 1])
  }

  /** The options after a history of requests, each refused one leaving them as they were. */
  function AlterAll(o: StartOptions, history: seq<AlterOptions>): (r: StartOptions) {
    if history == [] then o
    else
      var before := AlterAll(o, history[..|history| - 1]);
      match ApplyAlter(before, history[|history| - 1])
      case Ok(after) => after
      case Err(_) => before
  }

  /** The requests of a history that are accepted when they come. */
  function Accepted(o: StartOptions, history: seq<AlterOptions>): (accepted: seq<AlterOptions>) {
    if history == [] then []
    else
      var n := |history| - 1;
      Accepted(o, history[..n])
      + if ApplyAlter(AlterAll(o, history[..n]), history[n]).Ok? then [history[n]] else []
  }

  /** After any history the options are the initial ones with the last accepted values. */
  lemma {:induction false} AlterHistory(o: StartOptions, history: seq<AlterOptions>)
    requires ValidStart(o)
    ensures var accepted := Accepted(o, history);
            AlterAll(o, history)
            == o.(clients := LastClients(o.clients, accepted), targetTPS := LastTPS(o.targetTPS, accepted))
    ensures ValidStart(AlterAll(o, history))
  {
    if history != [] {
      var n := |history| - 1;
      AlterHistory(o, history[..n]);
      AlterExactly(AlterAll(o, history[..n]), history[n]);
      var before := Accepted(o, history[..n]);
      assert (before + [history[n]])[..|before|] == before;
      assert before + [] == before;
    }
  }
}
