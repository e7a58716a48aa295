/**
 * The layering of the process environment, the project's .env and the dashboard-saved
 * data/.env.generated, in the application loader and in the migration CLI's own copy of it.
 *
 * A file is the key-value map dotenv parses out of it, or absent. The list of keys whose blank value
 * counts as unset is a parameter, so everything holds for the shipped list and for any other.
 */
module EnvLayers {
  import opened Wrappers

  type Env = map<string, string>

  /** The defaults written to data/.env.generated on the first boot. */
  const FIRST_RUN: Env := map[
    "DATABASE_TYPE" := "sqlite", "POSTGRES_BUILTIN" := "false",
    "REDIS_ENABLED" := "false", "REDIS_BUILTIN" := "false", "QUEUE_ENABLED" := "false",
    "STORAGE_TYPE" := "local", "MINIO_BUILTIN" := "false", "STORAGE_LOCAL_PATH" := "./data/media"]

  predicate IsSpace(c: char) {
    || c == ' ' || '\t' <= c <= '\r' || c == '\U{A0}' || c == '\U{1680}' || '\U{2000}' <= c <= '\U{200A}'
    || c == '\U{2028}' || c == '\U{2029}' || c == '\U{202F}' || c == '\U{205F}' || c == '\U{3000}' || c == '\U{FEFF}'
  }

  /** `value.trim() === ''`. */
  predicate Blank(value: string) {
    forall i :: 0 <= i < |value| ==> IsSpace(value[i])
  }

  function Lookup(env: Env, key: string): Option<string> {
    if key in env then Some(env[key]) else None
  }

  /** dotenv with `override: false`: a key already present keeps its value, even an empty one. */
  function Merge(env: Env, layer: Env): Env {
    layer + env
  }

  function MergeFile(env: Env, file: Option<Env>): Env {
    if file.Some? then Merge(env, file.value) else env
  }

  function Cleared(env: Env, keys: seq<string>): Env {
    map k | k in env && !(k in keys && Blank(env[k])) :: env[k]
  }

  // ---------------------------------------------------------------- the two loaders, specified

  /** The layers above the saved file. */
  function Shadowing(os: Env, user: Option<Env>, blanks: seq<string>): Env {
    MergeFile(Cleared(os, blanks), user)
  }

  function GeneratedAfterBoot(generated: Option<Env>): Env {
    if generated.Some? then generated.value else FIRST_RUN
  }

  function AppEnv(os: Env, user: Option<Env>, generated: Option<Env>, blanks: seq<string>): Env {
    Merge(Shadowing(os, user, blanks), GeneratedAfterBoot(generated))
  }

  function CliEnv(os: Env, user: Option<Env>, generated: Option<Env>, blanks: seq<string>): Env {
    MergeFile(Shadowing(os, user, blanks), generated)
  }

  // ---------------------------------------------------------------- precedence

  function FirstOf(a: Option<string>, b: Option<string>): Option<string> {
    if a.Some? then a else b
  }

  /** Each key comes from the highest layer that has it: host, then .env, then the saved file. */
  lemma Precedence(os: Env, user: Option<Env>, generated: Option<Env>, blanks: seq<string>, key: string)
    ensures var host := if key in os && !(key in blanks && Blank(os[key])) then Some(os[key]) else None;
      var project := if user.Some? then Lookup(user.value, key) else None;
      Lookup(AppEnv(os, user, generated, blanks), key)
      == FirstOf(host, FirstOf(project, Lookup(GeneratedAfterBoot(generated), key)))
  {
  }

  /** No content of the saved file can change the key's final value. */
  ghost predicate OutOfReachOfSaves(os: Env, user: Option<Env>, blanks: seq<string>, key: string) {
    forall g: Env, h: Env ::
      Lookup(AppEnv(os, user, Some(g), blanks), key) == Lookup(AppEnv(os, user, Some(h), blanks), key)
  }

  /** No content of either file can. */
  ghost predicate OutOfReachOfFiles(os: Env, blanks: seq<string>, key: string) {
    forall u: Env, v: Env, g: Env, h: Env ::
      Lookup(AppEnv(os, Some(u), Some(g), blanks), key) == Lookup(AppEnv(os, Some(v), Some(h), blanks), key)
  }

  /**
   * PINNED, exactly: a key is in the pinned snapshot if and only if no content of the saved file can
   * change its final value.
   */
  lemma PinnedExactly(os: Env, user: Option<Env>, blanks: seq<string>, key: string)
    ensures key in Shadowing(os, user, blanks) <==> OutOfReachOfSaves(os, user, blanks, key)
  {
    if key !in Shadowing(os, user, blanks) {
      var g: Env, h: Env := map[key := "a"], map[key := "b"];
      assert Lookup(AppEnv(os, user, Some(g), blanks), key) != Lookup(AppEnv(os, user, Some(h), blanks), key);
    }
  }

  /** An unpinned key ends with the saved file's value, or stays absent. */
  lemma UnpinnedIsSaved(os: Env, user: Option<Env>, generated: Option<Env>, blanks: seq<string>, key: string)
    requires key !in Shadowing(os, user, blanks)
    ensures Lookup(AppEnv(os, user, generated, blanks), key) == Lookup(GeneratedAfterBoot(generated), key)
  {
  }

  /** HOST-SUPPLIED, exactly: a key is in the host snapshot iff no content of either file can change it. */
  lemma OsProvidedExactly(os: Env, blanks: seq<string>, key: string)
    ensures key in Cleared(os, blanks) <==> OutOfReachOfFiles(os, blanks, key)
    ensures forall user :: key in Cleared(os, blanks) ==> key in Shadowing(os, user, blanks)
  {
    if key !in Cleared(os, blanks) {
      var u: Env, v: Env, g: Env := map[key := "a"], map[key := "b"], map[];
      assert Lookup(AppEnv(os, Some(u), Some(g), blanks), key) != Lookup(AppEnv(os, Some(v), Some(g), blanks), key);
    }
  }

  /**
   * A blank value in the process environment shadows nothing exactly for the listed keys; a blank line
   * in .env pins any key, listed or not, because blanks are cleared before that file is merged.
   */
  lemma BlankPinsExactly(os: Env, user: Option<Env>, blanks: seq<string>, key: string)
    requires key in os && Blank(os[key])
    ensures key in Shadowing(os, user, blanks) <==> key !in blanks || (user.Some? && key in user.value)
    ensures key in blanks && user.Some? && key in user.value ==>
              forall g :: Lookup(AppEnv(os, user, Some(g), blanks), key) == Some(user.value[key])
  {
  }

  // ---------------------------------------------------------------- the two loaders agree

  /**
   * The migration CLI sees the application's environment if and only if the saved file exists, or every
   * first-run default it would have carried is shadowed.
   */
  lemma CliAgreesExactly(os: Env, user: Option<Env>, generated: Option<Env>, blanks: seq<string>)
    ensures CliEnv(os, user, generated, blanks) == AppEnv(os, user, generated, blanks) <==>
            generated.Some? || FIRST_RUN.Keys <= Shadowing(os, user, blanks).Keys
  {
    FillsIn(Shadowing(os, user, blanks), FIRST_RUN);
  }

  lemma FillsIn(env: Env, layer: Env)
    ensures Merge(env, layer) == env <==> layer.Keys <= env.Keys
  {
    assert Merge(env, layer).Keys == env.Keys + layer.Keys;
    if layer.Keys <= env.Keys {
      assert Merge(env, layer).Keys == env.Keys;
    }
  }

  /** After one application boot both loaders, in fresh processes, rebuild that boot's environment. */
  lemma BootsAgree(os: Env, user: Option<Env>, generated: Option<Env>, blanks: seq<string>)
    ensures var file := Some(GeneratedAfterBoot(generated));
      && CliEnv(os, user, file, blanks) == AppEnv(os, user, generated, blanks)
      && AppEnv(os, user, file, blanks) == AppEnv(os, user, generated, blanks)
  {
  }

  // ---------------------------------------------------------------- the process

  class Process {
    var env: Env
    var userFile: Option<Env>
    var generatedFile: Option<Env>
    var osEnvKeys: Option<set<string>>
    var pinnedEnvKeys: Option<set<string>>

    constructor (os: Env, user: Option<Env>, generated: Option<Env>)
      ensures env == os && userFile == user && generatedFile == generated
      ensures osEnvKeys == None && pinnedEnvKeys == None
    {
      env, userFile, generatedFile := os, user, generated;
      osEnvKeys, pinnedEnvKeys := None, None;
    }

    method ClearBlankEnv(keys: seq<string>)
      modifies this`env
      ensures env == Cleared(old(env), keys)
    {
      for i := 0 to |keys|
        invariant env == Cleared(old(env), keys[..i])
      {
        var key := keys[i];
        assert keys[..i + 1] == keys[..i] + [key];
        if key in env && Blank(env[key]) {
          env := env - {key};
        }
      }
      assert keys[..|keys|] == keys;
    }

    method RecordOsEnvKeys()
      modifies this`osEnvKeys
      ensures osEnvKeys == Some(env.Keys)
    {
      osEnvKeys := Some(env.Keys);
    }

    method RecordPinnedEnvKeys()
      modifies this`pinnedEnvKeys
      ensures pinnedEnvKeys == Some(env.Keys)
    {
      pinnedEnvKeys := Some(env.Keys);
    }

    method DotenvConfig(file: Env)
      modifies this`env
      ensures env == Merge(old(env), file)
    {
      env := Merge(env, file);
    }

    /** Loads every layer, takes the two snapshots between them, and creates the saved file on a first boot. */
    method LoadEnvironment(blanks: seq<string>)
      modifies this
      ensures env == AppEnv(old(env), userFile, old(generatedFile), blanks)
      ensures osEnvKeys == Some(Cleared(old(env), blanks).Keys)
      ensures pinnedEnvKeys == Some(Shadowing(old(env), userFile, blanks).Keys)
      ensures userFile == old(userFile) && generatedFile == Some(GeneratedAfterBoot(old(generatedFile)))
    {
      ClearBlankEnv(blanks);
      RecordOsEnvKeys();
      if userFile.Some? { DotenvConfig(userFile.value); }
      RecordPinnedEnvKeys();
      if generatedFile.None? { generatedFile := Some(FIRST_RUN); }
      DotenvConfig(generatedFile.value);
    }

    /** The second implementation of the same layering; it takes no snapshot and creates no file. */
    method LoadCliEnv(blanks: seq<string>)
      modifies this`env
      ensures env == CliEnv(old(env), userFile, generatedFile, blanks)
    {
      ClearBlankEnv(blanks);
      if userFile.Some? { DotenvConfig(userFile.value); }
      if generatedFile.Some? { DotenvConfig(generatedFile.value); }
    }

    /** Without a snapshot every key counts as host-supplied. */
    predicate IsOsProvidedEnv(key: string)
      reads this
    {
      osEnvKeys.None? || key in osEnvKeys.value
    }

    /** Without a snapshot no key counts as pinned. */
    predicate IsEnvPinned(key: string)
      reads this
    {
      pinnedEnvKeys.Some? && key in pinnedEnvKeys.value
    }
  }

  /**
   * One boot, then the dashboard's question, answered by the snapshots alone: a key is reported pinned
   * exactly when nothing saved to the file could have given it another value in this boot.
   */
  method BootAndAsk(os: Env, user: Option<Env>, generated: Option<Env>, blanks: seq<string>, key: string)
    returns (pinned: bool, hostSupplied: bool, value: Option<string>)
    ensures pinned <==> OutOfReachOfSaves(os, user, blanks, key)
    ensures hostSupplied <==> OutOfReachOfFiles(os, blanks, key)
    ensures hostSupplied ==> pinned
    ensures !pinned ==> value == Lookup(GeneratedAfterBoot(generated), key)
    ensures hostSupplied ==> key in os && value == Some(os[key])
  {
    var p := new Process(os, user, generated);
    p.LoadEnvironment(blanks);
    pinned := p.IsEnvPinned(key);
    hostSupplied := p.IsOsProvidedEnv(key);
    value := Lookup(p.env, key);
    PinnedExactly(os, user, blanks, key);
    OsProvidedExactly(os, blanks, key);
    if !pinned { UnpinnedIsSaved(os, user, generated, blanks, key); }
  }

  /**
   * A save and a restart, as the snapshots of the running process foretell them: a key it reports pinned
   * keeps its value whatever is written, any other key takes the value written. Where the key is reported
   * host-supplied the value is the host's.
   */
  method SaveAndReboot(
    os: Env, user: Option<Env>, generated: Option<Env>, written: Env, blanks: seq<string>, key: string)
    returns (pinned: bool, hostSupplied: bool, before: Option<string>, after: Option<string>)
    ensures pinned <==> OutOfReachOfSaves(os, user, blanks, key)
    ensures after == if pinned then before else Lookup(written, key)
    ensures hostSupplied ==> pinned && key in os && after == Some(os[key])
    ensures pinned && !hostSupplied ==> user.Some? && key in user.value && after == Some(user.value[key])
  {
    var running := new Process(os, user, generated);
    running.LoadEnvironment(blanks);
    pinned := running.IsEnvPinned(key);
    hostSupplied := running.IsOsProvidedEnv(key);
    before := Lookup(running.env, key);
    var restarted := new Process(os, running.userFile, Some(written));
    restarted.LoadEnvironment(blanks);
    after := Lookup(restarted.env, key);
    PinnedExactly(os, user, blanks, key);
    Precedence(os, user, generated, blanks, key);
    Precedence(os, user, Some(written), blanks, key);
  }
}
