/**
 * The infrastructure page's editable form: seeded from two queries that settle independently, edited by
 * the operator, locked against later refetches, and turned into a save payload.
 *
 * One event is one React commit. A query result "becomes" a new object only when its identity changes,
 * since that is what re-arms the effects; the effects of a commit run in declaration order.
 */
module InfraForm {
  import opened Wrappers

  datatype Value = Str(s: string) | Num(n: int) | Flag(b: bool)

  datatype Field =
    | Type | BuiltIn | Host | Port | Username | Password | Database | Schema | PoolSize
    | SslEnabled | SslRejectUnauthorized | Connected
    | LocalPath | S3Bucket | S3Region | S3AccessKey | S3SecretKey | S3Endpoint
    | Headless | SessionDataPath | BrowserArgs

  type Slice = map<Field, Value>

  datatype Part = Db | Redis | Storage | Engine

  datatype Form = Form(db: Slice, redis: Slice, storage: Slice, engine: Slice, redisEnabled: bool, queueEnabled: bool)
  {
    function Get(p: Part): Slice {
      match p
      case Db => db
      case Redis => redis
      case Storage => storage
      case Engine => engine
    }

    function With(p: Part, s: Slice): Form {
      match p
      case Db => this.(db := s)
      case Redis => this.(redis := s)
      case Storage => this.(storage := s)
      case Engine => this.(engine := s)
    }
  }

  /** The live /status result. A missing string reads as "", which the code treats alike. */
  datatype Status = Status(
    dbType: string, dbHost: string, dbBuiltIn: bool,
    redisEnabled: bool, redisHost: string, redisPort: string, redisBuiltIn: bool,
    queueEnabled: bool, storageType: string, storagePath: string, storageBuiltIn: bool,
    envPinned: seq<string>)

  /** The saved /config result. */
  datatype Saved = Saved(
    dbHost: string, dbPort: string, username: string, database: string, schema: string, poolSize: int,
    sslEnabled: bool, sslRejectUnauthorized: bool,
    redisHost: string, redisPort: string,
    localPath: string, s3Bucket: string, s3Region: string, s3Endpoint: string,
    engineType: string, headless: bool, sessionDataPath: string, browserArgs: string)

  datatype State = State(
    form: Form, status: Option<Status>, config: Option<Saved>,
    formHydrated: bool, engineHydrated: bool, engineTouched: bool)

  const DEFAULT_ENGINE := "whatsapp-web.js"

  const INITIAL_DB: Slice := map[
    Type := Str("sqlite"), BuiltIn := Flag(false), Host := Str("localhost"), Port := Str("5432"),
    Username := Str("postgres"), Password := Str(""), Database := Str("openwa"), Schema := Str("public"),
    PoolSize := Num(10), SslEnabled := Flag(false), SslRejectUnauthorized := Flag(true)]

  const INITIAL_REDIS: Slice := map[
    BuiltIn := Flag(false), Host := Str("localhost"), Port := Str("6379"), Password := Str(""),
    Connected := Flag(false)]

  const INITIAL_STORAGE: Slice := map[
    Type := Str("local"), BuiltIn := Flag(false), LocalPath := Str("./data/media"), S3Bucket := Str(""),
    S3Region := Str("ap-southeast-1"), S3AccessKey := Str(""), S3SecretKey := Str(""), S3Endpoint := Str("")]

  const INITIAL_ENGINE: Slice := map[
    Type := Str(DEFAULT_ENGINE), Headless := Flag(true), SessionDataPath := Str("./data/sessions"),
    BrowserArgs := Str("--no-sandbox --disable-setuid-sandbox --disable-dev-shm-usage --disable-gpu")]

  const DEFAULTS := Form(INITIAL_DB, INITIAL_REDIS, INITIAL_STORAGE, INITIAL_ENGINE, false, false)

  /** The hook at mount. What runs do is proved for any defaults at all, and so for DEFAULTS. */
  function Init(defaults: Form): State {
    State(defaults, None, None, false, false, false)
  }

  // ---------------------------------------------------------------- the effects

  /** JavaScript's `a || b` on strings. */
  function Or(a: string, b: string): string {
    if a != "" then a else b
  }

  /** The overrides of `{ ...prev, f: a || prev.f, ... }`: an empty string leaves the field alone. */
  function Given(m: map<Field, string>): (s: Slice)
    ensures forall f :: f in s <==> f in m && m[f] != ""
    ensures forall f :: f in s ==> s[f] == Str(m[f])
  {
    map f | f in m && m[f] != "" :: Str(m[f])
  }

  function LiveDb(st: Status): Slice {
    map[Type := Str(Or(st.dbType, "sqlite")), Host := Str(Or(st.dbHost, "localhost")), BuiltIn := Flag(st.dbBuiltIn)]
  }

  function LiveRedis(st: Status): Slice {
    map[Host := Str(st.redisHost), Port := Str(st.redisPort), BuiltIn := Flag(st.redisBuiltIn)]
  }

  function LiveStorage(st: Status): Slice {
    map[Type := Str(st.storageType), LocalPath := Str(Or(st.storagePath, "./uploads")),
        BuiltIn := Flag(st.storageBuiltIn)]
  }

  function SavedDb(c: Saved): Slice {
    Given(map[Host := c.dbHost, Port := c.dbPort, Username := c.username, Database := c.database, Schema := c.schema])
    + map[PoolSize := Num(c.poolSize), SslEnabled := Flag(c.sslEnabled),
          SslRejectUnauthorized := Flag(c.sslRejectUnauthorized)]
  }

  function SavedRedis(c: Saved): Slice {
    Given(map[Host := c.redisHost, Port := c.redisPort])
  }

  function SavedStorage(c: Saved): Slice {
    Given(map[LocalPath := c.localPath, S3Bucket := c.s3Bucket, S3Region := c.s3Region, S3Endpoint := c.s3Endpoint])
  }

  function SavedEngine(c: Saved): Slice {
    map[Headless := Flag(c.headless)] + Given(map[SessionDataPath := c.sessionDataPath, BrowserArgs := c.browserArgs])
  }

  function StatusSeed(f: Form, st: Status): Form {
    Form(f.db + LiveDb(st), f.redis + LiveRedis(st), f.storage + LiveStorage(st), f.engine,
         st.redisEnabled, st.queueEnabled)
  }

  function SavedSeed(f: Form, c: Saved): Form {
    f.(db := f.db + SavedDb(c), redis := f.redis + SavedRedis(c), storage := f.storage + SavedStorage(c),
       engine := f.engine + SavedEngine(c))
  }

  function StatusEffect(s: State): State {
    if s.status.None? || s.formHydrated then s else s.(form := StatusSeed(s.form, s.status.value))
  }

  function SavedEffect(s: State): State {
    if s.config.None? || s.formHydrated then s else s.(form := SavedSeed(s.form, s.config.value))
  }

  function LockEffect(s: State): State {
    if s.status.Some? && s.config.Some? then s.(formHydrated := true) else s
  }

  function SeedRadio(f: Form, c: Saved): Form {
    if c.engineType == "" then f else f.(engine := f.engine[Type := Str(c.engineType)])
  }

  function EngineEffect(s: State): State {
    if s.config.None? || s.config.value.engineType == "" || s.engineHydrated || s.engineTouched then s
    else s.(engineHydrated := true, form := SeedRadio(s.form, s.config.value))
  }

  // ---------------------------------------------------------------- events

  datatype Change<T> = Same | Becomes(now: Option<T>)

  datatype Event =
    | Refetch(status: Change<Status>, config: Change<Saved>)
    | Edit(part: Part, field: Field, value: Value)
    | SetRedisEnabled(enabled: bool)
    | SetQueueEnabled(enabled: bool)
    | SetRedisConnected(connected: bool)

  function Arrive(s: State, status: Change<Status>, config: Change<Saved>): State {
    s.(status := if status.Becomes? then status.now else s.status,
       config := if config.Becomes? then config.now else s.config)
  }

  function Seeded(s: State, status: Change<Status>, config: Change<Saved>): State {
    var s1 := if status.Becomes? then StatusEffect(s) else s;
    if config.Becomes? then SavedEffect(s1) else s1
  }

  function Locked(s: State, status: Change<Status>, config: Change<Saved>): State {
    var s3 := if status.Becomes? || config.Becomes? then LockEffect(s) else s;
    if config.Becomes? then EngineEffect(s3) else s3
  }

  function Commit(s: State, status: Change<Status>, config: Change<Saved>): State {
    Locked(Seeded(Arrive(s, status, config), status, config), status, config)
  }

  predicate IsClick(e: Event) {
    e.Edit? && e.part.Engine? && e.field.Type?
  }

  function EditForm(f: Form, e: Event): Form
    requires !e.Refetch?
  {
    match e
    case Edit(part, field, value) => f.With(part, f.Get(part)[field := value])
    case SetRedisEnabled(enabled) => f.(redisEnabled := enabled, queueEnabled := enabled && f.queueEnabled)
    case SetQueueEnabled(enabled) => f.(queueEnabled := enabled)
    case SetRedisConnected(connected) => f.(redis := f.redis[Connected := Flag(connected)])
  }

  function Step(s: State, e: Event): State {
    if e.Refetch? then Commit(s, e.status, e.config)
    else s.(form := EditForm(s.form, e), engineTouched := s.engineTouched || IsClick(e))
  }

  function Run(s: State, es: seq<Event>): State {
    if es == [] then s else Step(Run(s, es[..|es| - 1]), es[|es| - 1])
  }

  // ---------------------------------------------------------------- refetches after the lock

  predicate EngineKnown(s: State) {
    s.engineHydrated || s.engineTouched
  }

  /** The form is locked and its engine radio holds a real value. */
  predicate Frozen(s: State) {
    s.formHydrated && EngineKnown(s)
  }

  /** The operator's own events, in order. */
  function Edits(es: seq<Event>): seq<Event> {
    if es == [] then []
    else
      var before := Edits(es[..|es| - 1]);
      var e := es[|es| - 1];
      if e.Refetch? then before else before + [e]
  }

  lemma FrozenStep(s: State, e: Event)
    requires Frozen(s)
    ensures Frozen(Step(s, e))
    ensures Step(s, e).form == if e.Refetch? then s.form else EditForm(s.form, e)
  {
  }

  /**
   * NO EDIT IS LOST. From a frozen form, over any order of refetches, removals and edits, the form is
   * what the edits alone would have made of it.
   */
  lemma {:induction false} RefetchesAreInvisible(s: State, es: seq<Event>)
    requires Frozen(s)
    ensures Frozen(Run(s, es)) && Frozen(Run(s, Edits(es)))
    ensures Run(s, es).form == Run(s, Edits(es)).form
  {
    if es != [] {
      var n := |es| - 1;
      RefetchesAreInvisible(s, es[..n]);
      FrozenStep(Run(s, es[..n]), es[n]);
      if !es[n].Refetch? {
        assert Edits(es)[..|Edits(es)| - 1] == Edits(es[..n]);
        FrozenStep(Run(s, Edits(es[..n])), es[n]);
      }
    }
  }

  /**
   * Once both sources have resolved, refetches leave every editable field alone IF AND ONLY IF the radio
   * has been seeded or clicked. Otherwise a later /config that names an engine still moves the radio.
   */
  lemma FrozenExactly(s: State)
    requires s.formHydrated
    ensures (forall e: Event :: e.Refetch? ==> Step(s, e).form == s.form) <==> EngineKnown(s)
  {
    if EngineKnown(s) {
      forall e: Event | e.Refetch? ensures Step(s, e).form == s.form {
        FrozenStep(s, e);
      }
    } else {
      var t := if Lookup(s.form.engine, Type) == Some(Str("a")) then "b" else "a";
      var c := Saved("", "", "", "", "", 0, false, false, "", "", "", "", "", "", t, false, "", "");
      var e := Refetch(Same, Becomes(Some(c)));
      assert Lookup(Step(s, e).form.engine, Type) == Some(Str(t));
    }
  }

  function Lookup(s: Slice, f: Field): Option<Value> {
    if f in s then Some(s[f]) else None
  }

  /** A saved configuration without an engine locks the form first; the next one then changes the radio. */
  lemma LateSeedAfterLock(d: Form, st: Status, c: Saved, t: string)
    requires Type in d.engine && c.engineType == "" && t != ""
    ensures var s := Step(Init(d), Refetch(Becomes(Some(st)), Becomes(Some(c))));
      var u := Step(s, Refetch(Same, Becomes(Some(c.(engineType := t)))));
      && s.formHydrated && Lookup(s.form.engine, Type) == Lookup(d.engine, Type)
      && Lookup(u.form.engine, Type) == Some(Str(t))
  {
    var e := Refetch(Becomes(Some(st)), Becomes(Some(c)));
    CommitAndType(Init(d), e);
    CommitAndType(Step(Init(d), e), Refetch(Same, Becomes(Some(c.(engineType := t)))));
  }

  // ---------------------------------------------------------------- history of the engine type

  /** What the operator last put into a field. */
  function LastEdit(es: seq<Event>, p: Part, f: Field): Option<Value> {
    if es == [] then None
    else
      var e := es[|es| - 1];
      if e.Edit? && e.part == p && e.field == f then Some(e.value) else LastEdit(es[..|es| - 1], p, f)
  }

  predicate Offers(e: Event) {
    e.Refetch? && e.config.Becomes? && e.config.now.Some? && e.config.now.value.engineType != ""
  }

  /** The first engine a /config names before the operator has clicked one. */
  function FirstSeed(es: seq<Event>): Option<string> {
    if es == [] then None
    else
      var before := es[..|es| - 1];
      var e := es[|es| - 1];
      if FirstSeed(before).Some? || LastEdit(before, Engine, Type).Some? || !Offers(e) then FirstSeed(before)
      else Some(e.config.now.value.engineType)
  }

  function LatestStatus(es: seq<Event>): Option<Status> {
    if es == [] then None
    else
      var e := es[|es| - 1];
      if e.Refetch? && e.status.Becomes? then e.status.now else LatestStatus(es[..|es| - 1])
  }

  function RadioAfter(d: Form, es: seq<Event>): Option<Value> {
    match LastEdit(es, Engine, Type)
    case Some(v) => Some(v)
    case None => match FirstSeed(es)
      case Some(t) => Some(Str(t))
      case None => Lookup(d.engine, Type)
  }

  /** The seeding effects touch only the form, and not its radio. */
  lemma SeedsSkipType(s: State, status: Change<Status>, config: Change<Saved>)
    ensures var u := Seeded(s, status, config);
      && u == s.(form := u.form)
      && Lookup(u.form.engine, Type) == Lookup(s.form.engine, Type)
  {
    SavedEffectSkipsType(if status.Becomes? then StatusEffect(s) else s);
  }

  lemma SavedEffectSkipsType(s: State)
    ensures var u := SavedEffect(s);
      && u == s.(form := u.form)
      && Lookup(u.form.engine, Type) == Lookup(s.form.engine, Type)
  {
    if s.config.Some? {
      assert Type !in SavedEngine(s.config.value);
    }
  }

  lemma CommitAndType(s: State, e: Event)
    requires e.Refetch?
    ensures var u := Step(s, e);
      && u.engineTouched == s.engineTouched
      && u.engineHydrated == (s.engineHydrated || (Offers(e) && !s.engineTouched))
      && u.formHydrated ==
         (s.formHydrated || ((e.status.Becomes? || e.config.Becomes?) && u.status.Some? && u.config.Some?))
      && u.status == (if e.status.Becomes? then e.status.now else s.status)
      && u.config == (if e.config.Becomes? then e.config.now else s.config)
      && Lookup(u.form.engine, Type) ==
         if Offers(e) && !EngineKnown(s) then Some(Str(e.config.now.value.engineType)) else Lookup(s.form.engine, Type)
  {
    var s0 := Arrive(s, e.status, e.config);
    SeedsSkipType(s0, e.status, e.config);
    LockAndType(Seeded(s0, e.status, e.config), e.status, e.config);
  }

  lemma LockAndType(s: State, status: Change<Status>, config: Change<Saved>)
    ensures var u := Locked(s, status, config);
      var offer := config.Becomes? && s.config.Some? && s.config.value.engineType != "";
      && u.engineTouched == s.engineTouched && u.status == s.status && u.config == s.config
      && u.engineHydrated == (s.engineHydrated || (offer && !s.engineTouched))
      && u.formHydrated ==
         (s.formHydrated || ((status.Becomes? || config.Becomes?) && s.status.Some? && s.config.Some?))
      && Lookup(u.form.engine, Type) ==
         if offer && !EngineKnown(s) then Some(Str(s.config.value.engineType)) else Lookup(s.form.engine, Type)
  {
  }

  /**
   * A CLICKED ENGINE STAYS CLICKED. Over every run, the radio shows the last click; with no click, the
   * first engine a /config named; before that, the default. The two refs say which.
   */
  lemma {:induction false} RadioFollowsHistory(d: Form, es: seq<Event>)
    ensures var s := Run(Init(d), es);
      && Lookup(s.form.engine, Type) == RadioAfter(d, es)
      && (s.engineTouched <==> LastEdit(es, Engine, Type).Some?)
      && (s.engineHydrated <==> FirstSeed(es).Some?)
      && s.status == LatestStatus(es)
  {
    if es != [] {
      var n := |es| - 1;
      var s, e := Run(Init(d), es[..n]), es[n];
      RadioFollowsHistory(d, es[..n]);
      assert Run(Init(d), es) == Step(s, e);
      if e.Refetch? {
        CommitAndType(s, e);
      } else {
        EditAndType(s, e);
      }
    }
  }

  lemma EditAndType(s: State, e: Event)
    requires !e.Refetch?
    ensures var u := Step(s, e);
      && u.engineTouched == (s.engineTouched || IsClick(e))
      && u.engineHydrated == s.engineHydrated && u.status == s.status
      && Lookup(u.form.engine, Type) == if IsClick(e) then Some(e.value) else Lookup(s.form.engine, Type)
  {
  }

  /** The radio holds a real value exactly when the run has a click in it, or a /config naming an engine. */
  lemma {:induction false} KnownExactly(d: Form, es: seq<Event>)
    ensures EngineKnown(Run(Init(d), es)) <==> exists e :: e in es && (IsClick(e) || Offers(e))
  {
    if es != [] {
      var n := |es| - 1;
      KnownExactly(d, es[..n]);
      assert forall e :: e in es <==> e in es[..n] || e == es[n];
      if es[n].Refetch? {
        CommitAndType(Run(Init(d), es[..n]), es[n]);
      }
    }
  }

  /** Every configuration a run delivers names an engine, as the gateway's own endpoint always does. */
  predicate EnginesNamed(es: seq<Event>) {
    forall i :: 0 <= i < |es| && es[i].Refetch? && es[i].config.Becomes? && es[i].config.now.Some? ==>
      es[i].config.now.value.engineType != ""
  }

  lemma {:induction false} NamedEngineIsKnown(d: Form, es: seq<Event>)
    requires EnginesNamed(es)
    ensures var s := Run(Init(d), es);
      s.config.Some? || s.formHydrated ==> EngineKnown(s)
  {
    if es != [] {
      var n := |es| - 1;
      NamedEngineIsKnown(d, es[..n]);
      if es[n].Refetch? {
        CommitAndType(Run(Init(d), es[..n]), es[n]);
      }
    }
  }

  /**
   * LOCKED MEANS LOCKED, for a gateway that always names the engine: once both sources have resolved, over
   * any further order of refetches and edits the form is what the edits alone make of it.
   */
  lemma LockedFormStays(d: Form, es: seq<Event>, fs: seq<Event>)
    requires EnginesNamed(es) && Run(Init(d), es).formHydrated
    ensures var s := Run(Init(d), es);
      Frozen(s) && Run(s, fs).form == Run(s, Edits(fs)).form
  {
    NamedEngineIsKnown(d, es);
    RefetchesAreInvisible(Run(Init(d), es), fs);
  }

  // ---------------------------------------------------------------- the payload

  datatype Payload = Payload(
    database: Slice, redis: Slice, redisEnabled: bool, queueEnabled: bool, storage: Slice, engine: Slice)

  predicate Pinned(st: Option<Status>) {
    st.Some? && "ENGINE_TYPE" in st.value.envPinned
  }

  function PayloadOf(s: State): Payload {
    Payload(
      s.form.db, s.form.redis - {Connected}, s.form.redisEnabled, s.form.queueEnabled, s.form.storage,
      if EngineKnown(s) && !(s.engineHydrated && !s.engineTouched && Pinned(s.status)) then s.form.engine
      else s.form.engine - {Type})
  }

  /**
   * WHAT A SAVE PERSISTS, over every run: the last clicked engine, if any; else the first seeded one,
   * unless the status on hand at the click on Save pins ENGINE_TYPE; else no engine at all. The form's
   * default is never sent as if someone had chosen it.
   */
  lemma PayloadTypeExactly(d: Form, es: seq<Event>)
    ensures Lookup(PayloadOf(Run(Init(d), es)).engine, Type) ==
            match LastEdit(es, Engine, Type)
            case Some(v) => Some(v)
            case None =>
              if FirstSeed(es).Some? && !Pinned(LatestStatus(es)) then Some(Str(FirstSeed(es).value)) else None
  {
    RadioFollowsHistory(d, es);
  }

  predicate IsSecret(p: Part, f: Field) {
    || (p.Db? && f.Password?)
    || (p.Redis? && f.Password?)
    || (p.Storage? && (f.S3AccessKey? || f.S3SecretKey?))
  }

  lemma StatusSeedSkipsSecrets(x: Form, st: Status, p: Part, f: Field)
    requires IsSecret(p, f)
    ensures Lookup(StatusSeed(x, st).Get(p), f) == Lookup(x.Get(p), f)
  {
    assert p.Db? ==> f !in LiveDb(st);
    assert p.Redis? ==> f !in LiveRedis(st);
    assert p.Storage? ==> f !in LiveStorage(st);
  }

  lemma SavedSeedSkipsSecrets(x: Form, c: Saved, p: Part, f: Field)
    requires IsSecret(p, f)
    ensures Lookup(SavedSeed(x, c).Get(p), f) == Lookup(x.Get(p), f)
  {
    assert p.Db? ==> f !in SavedDb(c);
    assert p.Redis? ==> f !in SavedRedis(c);
    assert p.Storage? ==> f !in SavedStorage(c);
  }

  lemma StatusEffectSkipsSecrets(s: State, p: Part, f: Field)
    requires IsSecret(p, f)
    ensures Lookup(StatusEffect(s).form.Get(p), f) == Lookup(s.form.Get(p), f)
  {
    if s.status.Some? { StatusSeedSkipsSecrets(s.form, s.status.value, p, f); }
  }

  lemma SavedEffectSkipsSecrets(s: State, p: Part, f: Field)
    requires IsSecret(p, f)
    ensures Lookup(SavedEffect(s).form.Get(p), f) == Lookup(s.form.Get(p), f)
  {
    if s.config.Some? { SavedSeedSkipsSecrets(s.form, s.config.value, p, f); }
  }

  lemma LockSkipsSecrets(s: State, status: Change<Status>, config: Change<Saved>, p: Part, f: Field)
    requires IsSecret(p, f)
    ensures Lookup(Locked(s, status, config).form.Get(p), f) == Lookup(s.form.Get(p), f)
  {
  }

  lemma SeededSkipsSecrets(s: State, status: Change<Status>, config: Change<Saved>, p: Part, f: Field)
    requires IsSecret(p, f)
    ensures Lookup(Seeded(s, status, config).form.Get(p), f) == Lookup(s.form.Get(p), f)
  {
    StatusEffectSkipsSecrets(s, p, f);
    SavedEffectSkipsSecrets(if status.Becomes? then StatusEffect(s) else s, p, f);
  }

  lemma CommitSkipsSecrets(s: State, e: Event, p: Part, f: Field)
    requires e.Refetch? && IsSecret(p, f)
    ensures Lookup(Step(s, e).form.Get(p), f) == Lookup(s.form.Get(p), f)
  {
    var s0 := Arrive(s, e.status, e.config);
    SeededSkipsSecrets(s0, e.status, e.config, p, f);
    LockSkipsSecrets(Seeded(s0, e.status, e.config), e.status, e.config, p, f);
  }

  /** A secret that a save carries is exactly what the operator typed; untouched ones keep their default. */
  lemma {:induction false} SecretsAreTyped(d: Form, es: seq<Event>, p: Part, f: Field)
    requires IsSecret(p, f)
    ensures Lookup(Run(Init(d), es).form.Get(p), f) ==
            if LastEdit(es, p, f).Some? then LastEdit(es, p, f) else Lookup(d.Get(p), f)
  {
    if es != [] {
      var n := |es| - 1;
      var s, e := Run(Init(d), es[..n]), es[n];
      SecretsAreTyped(d, es[..n], p, f);
      assert Run(Init(d), es) == Step(s, e);
      if e.Refetch? {
        CommitSkipsSecrets(s, e, p, f);
      } else {
        EditReaches(s, e, p, f);
      }
    }
  }

  lemma EditReaches(s: State, e: Event, p: Part, f: Field)
    requires !e.Refetch? && f != Connected
    ensures Lookup(Step(s, e).form.Get(p), f) ==
            if e.Edit? && e.part == p && e.field == f then Some(e.value) else Lookup(s.form.Get(p), f)
  {
  }

  // ---------------------------------------------------------------- what the form shows, what a save carries

  function OrElse(saved: string, other: Option<Value>): Option<Value> {
    if saved != "" then Some(Str(saved)) else other
  }

  lemma Layered(a: Slice, b: Slice, c: Slice, f: Field)
    ensures Lookup(a + b + c, f) ==
            if f in c then Lookup(c, f) else if f in b then Lookup(b, f) else Lookup(a, f)
  {
  }

  lemma GivenLookup(m: map<Field, string>, f: Field)
    ensures Lookup(Given(m), f) == if f in m then OrElse(m[f], None) else None
  {
  }

  lemma DbLookups(c: Saved, f: Field)
    ensures Lookup(SavedDb(c), f) ==
      match f
      case Host => OrElse(c.dbHost, None)
      case Port => OrElse(c.dbPort, None)
      case Username => OrElse(c.username, None)
      case Database => OrElse(c.database, None)
      case Schema => OrElse(c.schema, None)
      case PoolSize => Some(Num(c.poolSize))
      case SslEnabled => Some(Flag(c.sslEnabled))
      case SslRejectUnauthorized => Some(Flag(c.sslRejectUnauthorized))
      case _ => None
  {
    var given :=
      map[Host := c.dbHost, Port := c.dbPort, Username := c.username, Database := c.database, Schema := c.schema];
    GivenLookup(given, f);
    if f !in {PoolSize, SslEnabled, SslRejectUnauthorized} {
      assert Lookup(SavedDb(c), f) == Lookup(Given(given), f);
    }
  }

  lemma StorageLookups(c: Saved, f: Field)
    ensures Lookup(SavedStorage(c), f) ==
      match f
      case LocalPath => OrElse(c.localPath, None)
      case S3Bucket => OrElse(c.s3Bucket, None)
      case S3Region => OrElse(c.s3Region, None)
      case S3Endpoint => OrElse(c.s3Endpoint, None)
      case _ => None
  {
  }

  /** What one field shows, from the defaults, the status and the saved file. */
  ghost predicate DbFieldShows(was: Slice, db: Slice, st: Status, c: Saved, f: Field) {
    Lookup(db, f) ==
      match f
      case Type => Some(Str(if st.dbType != "" then st.dbType else "sqlite"))
      case BuiltIn => Some(Flag(st.dbBuiltIn))
      case Host => OrElse(c.dbHost, Some(Str(if st.dbHost != "" then st.dbHost else "localhost")))
      case Port => OrElse(c.dbPort, Lookup(was, Port))
      case Username => OrElse(c.username, Lookup(was, Username))
      case Database => OrElse(c.database, Lookup(was, Database))
      case Schema => OrElse(c.schema, Lookup(was, Schema))
      case PoolSize => Some(Num(c.poolSize))
      case SslEnabled => Some(Flag(c.sslEnabled))
      case SslRejectUnauthorized => Some(Flag(c.sslRejectUnauthorized))
      case _ => Lookup(was, f)
  }

  ghost predicate RedisFieldShows(was: Slice, redis: Slice, st: Status, c: Saved, f: Field) {
    Lookup(redis, f) ==
      match f
      case BuiltIn => Some(Flag(st.redisBuiltIn))
      case Host => OrElse(c.redisHost, Some(Str(st.redisHost)))
      case Port => OrElse(c.redisPort, Some(Str(st.redisPort)))
      case _ => Lookup(was, f)
  }

  ghost predicate StorageFieldShows(was: Slice, storage: Slice, st: Status, c: Saved, f: Field) {
    Lookup(storage, f) ==
      match f
      case Type => Some(Str(st.storageType))
      case BuiltIn => Some(Flag(st.storageBuiltIn))
      case LocalPath => OrElse(c.localPath, Some(Str(if st.storagePath != "" then st.storagePath else "./uploads")))
      case S3Bucket => OrElse(c.s3Bucket, Lookup(was, S3Bucket))
      case S3Region => OrElse(c.s3Region, Lookup(was, S3Region))
      case S3Endpoint => OrElse(c.s3Endpoint, Lookup(was, S3Endpoint))
      case _ => Lookup(was, f)
  }

  ghost predicate EngineFieldShows(was: Slice, engine: Slice, c: Saved, f: Field) {
    Lookup(engine, f) ==
      match f
      case Type => OrElse(c.engineType, Lookup(was, Type))
      case Headless => Some(Flag(c.headless))
      case SessionDataPath => OrElse(c.sessionDataPath, Lookup(was, SessionDataPath))
      case BrowserArgs => OrElse(c.browserArgs, Lookup(was, BrowserArgs))
      case _ => Lookup(was, f)
  }

  lemma DbSeeded(was: Slice, st: Status, c: Saved, f: Field)
    ensures DbFieldShows(was, was + LiveDb(st) + SavedDb(c), st, c, f)
  {
    Layered(was, LiveDb(st), SavedDb(c), f);
    DbLookups(c, f);
  }

  lemma RedisSeeded(was: Slice, st: Status, c: Saved, f: Field)
    ensures RedisFieldShows(was, was + LiveRedis(st) + SavedRedis(c), st, c, f)
  {
    Layered(was, LiveRedis(st), SavedRedis(c), f);
  }

  lemma StorageSeeded(was: Slice, st: Status, c: Saved, f: Field)
    ensures StorageFieldShows(was, was + LiveStorage(st) + SavedStorage(c), st, c, f)
  {
    Layered(was, LiveStorage(st), SavedStorage(c), f);
    StorageLookups(c, f);
  }

  lemma EngineSeeded(was: Slice, c: Saved, f: Field)
    ensures var seeded := was + SavedEngine(c);
      EngineFieldShows(was, if c.engineType == "" then seeded else seeded[Type := Str(c.engineType)], c, f)
  {
  }

  lemma BothArrive(d: Form, st: Status, c: Saved)
    ensures var form := Step(Init(d), Refetch(Becomes(Some(st)), Becomes(Some(c)))).form;
      && form.redisEnabled == st.redisEnabled && form.queueEnabled == st.queueEnabled
      && form.db == d.db + LiveDb(st) + SavedDb(c)
      && form.redis == d.redis + LiveRedis(st) + SavedRedis(c)
      && form.storage == d.storage + LiveStorage(st) + SavedStorage(c)
      && form.engine == var seeded := d.engine + SavedEngine(c);
                        if c.engineType == "" then seeded else seeded[Type := Str(c.engineType)]
  {
    var s0 := Init(d).(status := Some(st), config := Some(c));
    assert Arrive(Init(d), Becomes(Some(st)), Becomes(Some(c))) == s0;
    var s2 := s0.(form := SavedSeed(StatusSeed(d, st), c));
    assert Seeded(s0, Becomes(Some(st)), Becomes(Some(c))) == s2;
    assert Locked(s2, Becomes(Some(st)), Becomes(Some(c))).form == SeedRadio(s2.form, c);
  }

  /**
   * WHAT IS SHOWN FIRST, field by field: the commit that brings both results shows what is running; the
   * saved file fills in what the status does not expose and has the last word on addresses; a field that
   * neither names keeps its default, secrets among them.
   */
  lemma FirstSeedExactly(d: Form, st: Status, c: Saved, f: Field)
    ensures var form := Step(Init(d), Refetch(Becomes(Some(st)), Becomes(Some(c)))).form;
      && form.redisEnabled == st.redisEnabled && form.queueEnabled == st.queueEnabled
      && DbFieldShows(d.db, form.db, st, c, f) && RedisFieldShows(d.redis, form.redis, st, c, f)
      && StorageFieldShows(d.storage, form.storage, st, c, f) && EngineFieldShows(d.engine, form.engine, c, f)
  {
    BothArrive(d, st, c);
    DbSeeded(d.db, st, c, f);
    RedisSeeded(d.redis, st, c, f);
    StorageSeeded(d.storage, st, c, f);
    EngineSeeded(d.engine, c, f);
  }

  function Sent(p: Payload, part: Part): Slice {
    match part
    case Db => p.database
    case Redis => p.redis
    case Storage => p.storage
    case Engine => p.engine
  }

  /** A save carries both toggles and every field on screen, the live indicator and an unchosen engine apart. */
  lemma PayloadExactly(s: State, part: Part, f: Field)
    ensures PayloadOf(s).redisEnabled == s.form.redisEnabled && PayloadOf(s).queueEnabled == s.form.queueEnabled
    ensures Lookup(Sent(PayloadOf(s), part), f) ==
      if part.Redis? && f.Connected? then None
      else if part.Engine? && f.Type? && !s.engineTouched
        && (!s.engineHydrated || (s.status.Some? && "ENGINE_TYPE" in s.status.value.envPinned)) then None
      else Lookup(s.form.Get(part), f)
  {
  }

  lemma {:induction false} EditsFollow(s: State, es: seq<Event>, p: Part, f: Field)
    requires Frozen(s) && f != Connected
    ensures Lookup(Run(s, es).form.Get(p), f) ==
            if LastEdit(es, p, f).Some? then LastEdit(es, p, f) else Lookup(s.form.Get(p), f)
  {
    if es != [] {
      var n := |es| - 1;
      var u, e := Run(s, es[..n]), es[n];
      EditsFollow(s, es[..n], p, f);
      RefetchesAreInvisible(s, es[..n]);
      FrozenStep(u, e);
      if !e.Refetch? { EditReaches(u, e, p, f); }
    }
  }

  /**
   * WHAT WAS TYPED IS SAVED: after any refetches and edits of a frozen form, a save carries what was last
   * put into a field, and for a field left alone what the form showed when it froze.
   */
  lemma {:induction false} EditsAreSaved(s: State, es: seq<Event>, p: Part, f: Field)
    requires Frozen(s) && f != Connected && !(p.Engine? && f.Type?)
    ensures Lookup(Sent(PayloadOf(Run(s, es)), p), f) ==
            if LastEdit(es, p, f).Some? then LastEdit(es, p, f) else Lookup(s.form.Get(p), f)
  {
    EditsFollow(s, es, p, f);
    PayloadExactly(Run(s, es), p, f);
  }

  /** What the operator made of the Redis switch. */
  function RedisSwitch(es: seq<Event>, was: bool): bool {
    if es == [] then was
    else
      var e := es[|es| - 1];
      if e.SetRedisEnabled? then e.enabled else RedisSwitch(es[..|es| - 1], was)
  }

  /** And of the queue's, which switching Redis off switches off. */
  function QueueSwitch(es: seq<Event>, was: bool): bool {
    if es == [] then was
    else
      var e := es[|es| - 1];
      if e.SetQueueEnabled? then e.enabled
      else if e == SetRedisEnabled(false) then false
      else QueueSwitch(es[..|es| - 1], was)
  }

  lemma SwitchStep(s: State, e: Event)
    requires Frozen(s)
    ensures var form := Step(s, e).form;
      && form.redisEnabled == (if e.SetRedisEnabled? then e.enabled else s.form.redisEnabled)
      && form.queueEnabled == (if e.SetQueueEnabled? then e.enabled
                               else s.form.queueEnabled && e != SetRedisEnabled(false))
  {
    FrozenStep(s, e);
  }

  lemma {:induction false} SwitchesFollow(s: State, es: seq<Event>)
    requires Frozen(s)
    ensures Run(s, es).form.redisEnabled == RedisSwitch(es, s.form.redisEnabled)
    ensures Run(s, es).form.queueEnabled == QueueSwitch(es, s.form.queueEnabled)
  {
    if es != [] {
      var n := |es| - 1;
      SwitchesFollow(s, es[..n]);
      RefetchesAreInvisible(s, es[..n]);
      SwitchStep(Run(s, es[..n]), es[n]);
    }
  }

  /** The switches of a frozen form are saved as the operator last left them. */
  lemma {:induction false} SwitchesAreSaved(s: State, es: seq<Event>)
    requires Frozen(s)
    ensures PayloadOf(Run(s, es)).redisEnabled == RedisSwitch(es, s.form.redisEnabled)
    ensures PayloadOf(Run(s, es)).queueEnabled == QueueSwitch(es, s.form.queueEnabled)
  {
    SwitchesFollow(s, es);
    PayloadExactly(Run(s, es), Db, Host);
  }

  /** A typed secret reaches the save, over every run; an untouched one goes out as its empty default. */
  lemma SecretsAreSaved(d: Form, es: seq<Event>, p: Part, f: Field)
    requires IsSecret(p, f)
    ensures Lookup(Sent(PayloadOf(Run(Init(d), es)), p), f) ==
            if LastEdit(es, p, f).Some? then LastEdit(es, p, f) else Lookup(d.Get(p), f)
  {
    SecretsAreTyped(d, es, p, f);
    PayloadExactly(Run(Init(d), es), p, f);
  }

  // ---------------------------------------------------------------- which source answers first

  /** A detail the saved file names, and the live status contradicts. */
  predicate Disagree(saved: string, live: string) {
    saved != "" && saved != live
  }

  /** Two overrides can be applied in either order exactly when they agree wherever they overlap. */
  lemma MergeOrder(x: Slice, a: Slice, b: Slice)
    ensures x + a + b == x + b + a <==> forall f :: f in a && f in b ==> a[f] == b[f]
  {
    forall f | f in a && f in b ensures (x + a + b)[f] == b[f] && (x + b + a)[f] == a[f] {
    }
    if forall f :: f in a && f in b ==> a[f] == b[f] {
      assert (x + a + b).Keys == (x + b + a).Keys;
    }
  }

  /**
   * The two queries race. The form they seed is the same in either order exactly when the saved host,
   * Redis address and local path do not contradict the running ones: whichever answers last wins those.
   */
  lemma ArrivalOrderExactly(d: Form, st: Status, c: Saved)
    ensures var live, saved := Refetch(Becomes(Some(st)), Same), Refetch(Same, Becomes(Some(c)));
      Step(Step(Init(d), live), saved).form == Step(Step(Init(d), saved), live).form <==>
      && !Disagree(c.dbHost, Or(st.dbHost, "localhost"))
      && !Disagree(c.redisHost, st.redisHost) && !Disagree(c.redisPort, st.redisPort)
      && !Disagree(c.localPath, Or(st.storagePath, "./uploads"))
  {
    LiveFirst(d, st, c);
    SavedFirst(d, st, c);
    SeedOrder(d, st, c);
    DbOrder(d.db, st, c);
    RedisOrder(d.redis, st, c);
    StorageOrder(d.storage, st, c);
  }

  lemma LiveFirst(d: Form, st: Status, c: Saved)
    ensures Step(Step(Init(d), Refetch(Becomes(Some(st)), Same)), Refetch(Same, Becomes(Some(c)))).form
            == SeedRadio(SavedSeed(StatusSeed(d, st), c), c)
  {
    var s := Step(Init(d), Refetch(Becomes(Some(st)), Same));
    assert s == Init(StatusSeed(d, st)).(status := Some(st));
  }

  lemma SavedFirst(d: Form, st: Status, c: Saved)
    ensures Step(Step(Init(d), Refetch(Same, Becomes(Some(c)))), Refetch(Becomes(Some(st)), Same)).form
            == StatusSeed(SeedRadio(SavedSeed(d, c), c), st)
  {
    var s := Step(Init(d), Refetch(Same, Becomes(Some(c))));
    assert s == Init(SeedRadio(SavedSeed(d, c), c)).(config := Some(c), engineHydrated := c.engineType != "");
  }

  lemma SeedOrder(d: Form, st: Status, c: Saved)
    ensures SeedRadio(SavedSeed(StatusSeed(d, st), c), c) == StatusSeed(SeedRadio(SavedSeed(d, c), c), st) <==>
      && d.db + LiveDb(st) + SavedDb(c) == d.db + SavedDb(c) + LiveDb(st)
      && d.redis + LiveRedis(st) + SavedRedis(c) == d.redis + SavedRedis(c) + LiveRedis(st)
      && d.storage + LiveStorage(st) + SavedStorage(c) == d.storage + SavedStorage(c) + LiveStorage(st)
  {
  }

  /** Overrides that can only meet in one field. */
  lemma MeetAt(x: Slice, a: Slice, b: Slice, at: Field)
    requires forall f :: f in a && f in b ==> f == at
    ensures x + a + b == x + b + a <==> (at in a && at in b ==> a[at] == b[at])
  {
    MergeOrder(x, a, b);
  }

  lemma DbOrder(x: Slice, st: Status, c: Saved)
    ensures x + LiveDb(st) + SavedDb(c) == x + SavedDb(c) + LiveDb(st) <==>
            !Disagree(c.dbHost, Or(st.dbHost, "localhost"))
  {
    DbFields(c);
    assert LiveDb(st).Keys == {Type, Host, BuiltIn};
    MeetAt(x, LiveDb(st), SavedDb(c), Host);
  }

  lemma DbFields(c: Saved)
    ensures Type !in SavedDb(c) && BuiltIn !in SavedDb(c)
    ensures Host in SavedDb(c) <==> c.dbHost != ""
    ensures Host in SavedDb(c) ==> SavedDb(c)[Host] == Str(c.dbHost)
  {
  }

  lemma RedisOrder(x: Slice, st: Status, c: Saved)
    ensures x + LiveRedis(st) + SavedRedis(c) == x + SavedRedis(c) + LiveRedis(st) <==>
            !Disagree(c.redisHost, st.redisHost) && !Disagree(c.redisPort, st.redisPort)
  {
    MergeOrder(x, LiveRedis(st), SavedRedis(c));
    assert forall f :: f in LiveRedis(st) && f in SavedRedis(c) ==> f == Host || f == Port;
    assert Host in SavedRedis(c) <==> c.redisHost != "";
    assert Port in SavedRedis(c) <==> c.redisPort != "";
  }

  lemma StorageOrder(x: Slice, st: Status, c: Saved)
    ensures x + LiveStorage(st) + SavedStorage(c) == x + SavedStorage(c) + LiveStorage(st) <==>
            !Disagree(c.localPath, Or(st.storagePath, "./uploads"))
  {
    StorageFields(c);
    assert LiveStorage(st).Keys == {Type, LocalPath, BuiltIn};
    MeetAt(x, LiveStorage(st), SavedStorage(c), LocalPath);
  }

  lemma StorageFields(c: Saved)
    ensures Type !in SavedStorage(c) && BuiltIn !in SavedStorage(c)
    ensures LocalPath in SavedStorage(c) <==> c.localPath != ""
    ensures LocalPath in SavedStorage(c) ==> SavedStorage(c)[LocalPath] == Str(c.localPath)
  {
  }

  // ---------------------------------------------------------------- the hook

  class InfraConfigForm {
    var dbConfig: Slice
    var redisConfig: Slice
    var storageConfig: Slice
    var engineConfig: Slice
    var redisEnabled: bool
    var queueEnabled: bool
    var formHydrated: bool
    var engineHydrated: bool
    var engineTouched: bool
    var infraStatus: Option<Status>
    var savedConfig: Option<Saved>

    ghost function Model(): State
      reads this
    {
      State(Form(dbConfig, redisConfig, storageConfig, engineConfig, redisEnabled, queueEnabled),
            infraStatus, savedConfig, formHydrated, engineHydrated, engineTouched)
    }

    constructor ()
      ensures Model() == Init(DEFAULTS)
    {
      dbConfig, redisConfig, storageConfig, engineConfig := INITIAL_DB, INITIAL_REDIS, INITIAL_STORAGE, INITIAL_ENGINE;
      redisEnabled, queueEnabled := false, false;
      formHydrated, engineHydrated, engineTouched := false, false, false;
      infraStatus, savedConfig := None, None;
    }

    method SeedFromStatus()
      modifies this
      ensures Model() == StatusEffect(old(Model()))
    {
      if infraStatus.None? || formHydrated { return; }
      var st := infraStatus.value;
      dbConfig := dbConfig + LiveDb(st);
      redisConfig := redisConfig + LiveRedis(st);
      redisEnabled := st.redisEnabled;
      storageConfig := storageConfig + LiveStorage(st);
      queueEnabled := st.queueEnabled;
    }

    method SeedFromSaved()
      modifies this
      ensures Model() == SavedEffect(old(Model()))
    {
      if savedConfig.None? || formHydrated { return; }
      var c := savedConfig.value;
      dbConfig := dbConfig + SavedDb(c);
      redisConfig := redisConfig + SavedRedis(c);
      storageConfig := storageConfig + SavedStorage(c);
      engineConfig := engineConfig + SavedEngine(c);
    }

    method LockOnceSeeded()
      modifies this`formHydrated
      ensures Model() == LockEffect(old(Model()))
    {
      if infraStatus.Some? && savedConfig.Some? { formHydrated := true; }
    }

    method SeedEngineType()
      modifies this`engineHydrated, this`engineConfig
      ensures Model() == EngineEffect(old(Model()))
    {
      var seed := if savedConfig.Some? then savedConfig.value.engineType else "";
      if seed == "" || engineHydrated || engineTouched { return; }
      engineHydrated := true;
      if Type !in engineConfig || engineConfig[Type] != Str(seed) {
        engineConfig := engineConfig[Type := Str(seed)];
      }
    }

    /** A commit in which either query result may be a new object: the four effects, in order. */
    method OnCommit(status: Change<Status>, config: Change<Saved>)
      modifies this
      ensures Model() == Step(old(Model()), Refetch(status, config))
    {
      if status.Becomes? { infraStatus := status.now; }
      if config.Becomes? { savedConfig := config.now; }
      if status.Becomes? { SeedFromStatus(); }
      if config.Becomes? { SeedFromSaved(); }
      if status.Becomes? || config.Becomes? { LockOnceSeeded(); }
      if config.Becomes? { SeedEngineType(); }
    }

    method UpdateDbConfig(key: Field, value: Value)
      modifies this`dbConfig
      ensures Model() == Step(old(Model()), Edit(Db, key, value))
    {
      dbConfig := dbConfig[key := value];
    }

    method UpdateRedisConfig(key: Field, value: Value)
      modifies this`redisConfig
      ensures Model() == Step(old(Model()), Edit(Redis, key, value))
    {
      redisConfig := redisConfig[key := value];
    }

    method UpdateStorageConfig(key: Field, value: Value)
      modifies this`storageConfig
      ensures Model() == Step(old(Model()), Edit(Storage, key, value))
    {
      storageConfig := storageConfig[key := value];
    }

    method UpdateEngineConfig(key: Field, value: Value)
      modifies this`engineConfig, this`engineTouched
      ensures Model() == Step(old(Model()), Edit(Engine, key, value))
    {
      if key == Type { engineTouched := true; }
      engineConfig := engineConfig[key := value];
    }

    method ChangeRedisEnabled(enabled: bool)
      modifies this`redisEnabled, this`queueEnabled
      ensures Model() == Step(old(Model()), SetRedisEnabled(enabled))
      ensures redisEnabled == enabled && queueEnabled == (enabled && old(queueEnabled))
    {
      redisEnabled := enabled;
      if !enabled { queueEnabled := false; }
    }

    /** Reads the refs and the newest status, at the click on Save. */
    method BuildSavePayload() returns (p: Payload)
      ensures p == PayloadOf(Model())
      ensures p.redisEnabled == redisEnabled && p.queueEnabled == queueEnabled
      ensures p.database == dbConfig && p.storage == storageConfig
      ensures Connected !in p.redis && forall f :: f != Connected ==> Lookup(p.redis, f) == Lookup(redisConfig, f)
      ensures forall f :: f != Type ==> Lookup(p.engine, f) == Lookup(engineConfig, f)
    {
      var typeKnown := engineHydrated || engineTouched;
      var pinnedSeed := engineHydrated && !engineTouched
                        && infraStatus.Some? && "ENGINE_TYPE" in infraStatus.value.envPinned;
      var engine := if typeKnown && !pinnedSeed then engineConfig else engineConfig - {Type};
      p := Payload(dbConfig, redisConfig - {Connected}, redisEnabled, queueEnabled, storageConfig, engine);
    }

    method Deliver(e: Event)
      modifies this
      ensures Model() == Step(old(Model()), e)
    {
      match e
      case Refetch(status, config) => OnCommit(status, config);
      case Edit(part, field, value) =>
        match part {
          case Db => UpdateDbConfig(field, value);
          case Redis => UpdateRedisConfig(field, value);
          case Storage => UpdateStorageConfig(field, value);
          case Engine => UpdateEngineConfig(field, value);
        }
      case SetRedisEnabled(enabled) => ChangeRedisEnabled(enabled);
      case SetQueueEnabled(enabled) => queueEnabled := enabled;
      case SetRedisConnected(connected) => redisConfig := redisConfig[Connected := Flag(connected)];
    }

    /** Every run of the hook is a run of the specification. */
    method Drive(es: seq<Event>)
      modifies this
      ensures Model() == Run(old(Model()), es)
    {
      ghost var start := Model();
      for n := 0 to |es|
        invariant Model() == Run(start, es[..n])
      {
        assert es[..n + 1][..n] == es[..n];
        Deliver(es[n]);
      }
      assert es[..|es|] == es;
    }
  }
}
