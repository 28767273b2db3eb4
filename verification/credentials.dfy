/**
 * `getSnowflakeConfig` and `getConfig`: the connection options built from
 * environment variables, the configuration file's section and built-in
 * defaults, in one of two exclusive authentication modes.
 */
module Credentials {
  import opened Wrappers
  import opened JsText
  import TomlSection

  /** The environment variables the resolver reads; `None` when a variable is unset. */
  datatype Env = Env(
    account: Option<string>,        // SNOWFLAKE_ACCOUNT
    warehouse: Option<string>,      // SNOWFLAKE_WAREHOUSE
    database: Option<string>,       // SNOWFLAKE_DATABASE
    schema: Option<string>,         // SNOWFLAKE_SCHEMA
    user: Option<string>,           // SNOWFLAKE_USER
    connectionName: Option<string>, // SNOWFLAKE_CONNECTION_NAME
    host: Option<string>)           // SNOWFLAKE_HOST

  const NoEnv: Env := Env(None, None, None, None, None, None, None)

  const DefaultConnectionName: string := "pm"
  const DefaultAccount: string := "pm"
  const DefaultWarehouse: string := "HLEVEL1"
  const DefaultDatabase: string := "CUSTOMER_360_DB"
  const DefaultSchema: string := "ANALYTICS"
  const DefaultUser: string := "ujagtap"
  const DefaultAuthenticator: string := "EXTERNALBROWSER"
  const OAuthAuthenticator: string := "oauth"

  /** The authentication part of the options: a bearer token, or a user name with an authenticator. */
  datatype Auth =
    | OAuth(token: string, host: Option<string>)
    | Login(username: string, authenticator: string)

  /** The options object handed to the driver's `createConnection`. */
  datatype ConnectionOptions = ConnectionOptions(
    account: string, warehouse: string, database: string, schema: string, auth: Auth)
  {
    function Authenticator(): string {
      match auth
      case OAuth(_, _) => OAuthAuthenticator
      case Login(_, a) => a
    }
  }

  /** A property of the parsed section; `None` when the section does not set it. */
  function Setting(settings: map<string, string>, key: string): Option<string> {
    if key in settings then Some(settings[key]) else None
  }

  /** The section name looked up in the configuration file. */
  function ConnectionName(env: Env): string {
    OrElse(env.connectionName, DefaultConnectionName)
  }

  /**
   * `getSnowflakeConfig`: `configFile` is the content of the configuration
   * file, `None` when it does not exist or cannot be read.
   */
  function FileSettings(env: Env, configFile: Option<string>): (r: map<string, string>)
    ensures configFile.None? ==> r == map[]
  {
    match configFile
    case None => map[]
    case Some(content) => TomlSection.ParseTomlConnection(content, ConnectionName(env))
  }

  /**
   * An existing file is parsed for the section that `SNOWFLAKE_CONNECTION_NAME`
   * names, or `pm` when that variable is unset or empty.
   */
  lemma FileSection(env: Env, content: string)
    ensures FirstNonEmpty([env.connectionName], DefaultConnectionName, ConnectionName(env))
    ensures FileSettings(env, Some(content)) == TomlSection.ParseTomlConnection(content, ConnectionName(env))
  {
    OrElseOne(env.connectionName, DefaultConnectionName);
  }

  function UpperSetting(v: Option<string>): Option<string> {
    match v
    case None => None
    case Some(s) => Some(ToUpper(s))
  }

  /**
   * `getConfig`: `tokenFile` is what `getOAuthToken` returns, the token
   * file's content or `None` when it does not exist or cannot be read.
   */
  function GetConfig(env: Env, configFile: Option<string>, tokenFile: Option<string>): (r: ConnectionOptions)
    ensures r.auth.OAuth? <==> Truthy(tokenFile)
    ensures r.auth.OAuth? ==> r.auth.token == tokenFile.value && r.auth.host == env.host
    ensures r.auth.OAuth? <==> r.Authenticator() == OAuthAuthenticator
  {
    var file := FileSettings(env, configFile);
    var auth :=
      if Truthy(tokenFile) then OAuth(tokenFile.value, env.host)
      else Login(
        OrElse(env.user, OrElse(Setting(file, "user"), DefaultUser)),
        OrElse(UpperSetting(Setting(file, "authenticator")), DefaultAuthenticator));
    ConnectionOptions(
      OrElse(env.account, OrElse(Setting(file, "account"), DefaultAccount)),
      OrElse(env.warehouse, OrElse(Setting(file, "warehouse"), DefaultWarehouse)),
      OrElse(env.database, DefaultDatabase),
      OrElse(env.schema, DefaultSchema),
      auth)
  }

  /**
   * `v` is what a priority list of sources yields: the first source holding
   * a non-empty string, or `default` when none does.
   */
  predicate FirstNonEmpty(sources: seq<Option<string>>, default: string, v: string) {
    || (exists i :: 0 <= i < |sources| && Truthy(sources[i]) && v == sources[i].value &&
          forall j :: 0 <= j < i ==> !Truthy(sources[j]))
    || ((forall i :: 0 <= i < |sources| ==> !Truthy(sources[i])) && v == default)
  }

  lemma OrElseTwo(a: Option<string>, b: Option<string>, default: string)
    ensures FirstNonEmpty([a, b], default, OrElse(a, OrElse(b, default)))
  {
    var s := [a, b];
    if Truthy(a) {
      assert Truthy(s[0]);
    } else if Truthy(b) {
      assert Truthy(s[1]) && !Truthy(s[0]);
    }
  }

  lemma OrElseOne(a: Option<string>, default: string)
    ensures FirstNonEmpty([a], default, OrElse(a, default))
  {
    if Truthy(a) { assert Truthy([a][0]); }
  }

  /**
   * Field precedence: account and warehouse take the environment, then the
   * file, then the default; database and schema take the environment, then
   * the default, and never look at the file.
   */
  lemma FieldPrecedence(env: Env, configFile: Option<string>, tokenFile: Option<string>)
    ensures var r := GetConfig(env, configFile, tokenFile);
      var file := FileSettings(env, configFile);
      && FirstNonEmpty([env.account, Setting(file, "account")], DefaultAccount, r.account)
      && FirstNonEmpty([env.warehouse, Setting(file, "warehouse")], DefaultWarehouse, r.warehouse)
      && FirstNonEmpty([env.database], DefaultDatabase, r.database)
      && FirstNonEmpty([env.schema], DefaultSchema, r.schema)
  {
    var file := FileSettings(env, configFile);
    OrElseTwo(env.account, Setting(file, "account"), DefaultAccount);
    OrElseTwo(env.warehouse, Setting(file, "warehouse"), DefaultWarehouse);
    OrElseOne(env.database, DefaultDatabase);
    OrElseOne(env.schema, DefaultSchema);
  }

  /** In user mode the user name follows the environment, then the file's `user`, then the default. */
  lemma UsernamePrecedence(env: Env, configFile: Option<string>, tokenFile: Option<string>)
    requires !Truthy(tokenFile)
    ensures var r := GetConfig(env, configFile, tokenFile);
      r.auth.Login? &&
      FirstNonEmpty([env.user, Setting(FileSettings(env, configFile), "user")], DefaultUser, r.auth.username)
  {
    OrElseTwo(env.user, Setting(FileSettings(env, configFile), "user"), DefaultUser);
  }

  /** The database and schema never depend on the configuration file. */
  lemma DatabaseIgnoresFile(env: Env, file1: Option<string>, file2: Option<string>, tokenFile: Option<string>)
    ensures GetConfig(env, file1, tokenFile).database == GetConfig(env, file2, tokenFile).database
    ensures GetConfig(env, file1, tokenFile).schema == GetConfig(env, file2, tokenFile).schema
  {
  }

  /**
   * The authenticator has no environment override: two environments that
   * select the same file section give the same authenticator.
   */
  lemma AuthenticatorIgnoresEnv(env1: Env, env2: Env, configFile: Option<string>, tokenFile: Option<string>)
    requires ConnectionName(env1) == ConnectionName(env2)
    ensures GetConfig(env1, configFile, tokenFile).Authenticator() == GetConfig(env2, configFile, tokenFile).Authenticator()
  {
  }

  /** A set authenticator is used upper-cased; an absent or empty one gives the default. */
  lemma AuthenticatorFromFile(env: Env, configFile: Option<string>, tokenFile: Option<string>)
    requires !Truthy(tokenFile)
    ensures var a := Setting(FileSettings(env, configFile), "authenticator");
      var r := GetConfig(env, configFile, tokenFile);
      && (Truthy(a) ==> r.Authenticator() == ToUpper(a.value))
      && (!Truthy(a) ==> r.Authenticator() == DefaultAuthenticator)
  {
    var a := Setting(FileSettings(env, configFile), "authenticator");
    if a.Some? && a.value != "" {
      assert |ToUpper(a.value)| > 0;
    }
  }

  /** A line `key = "value"` of the configuration file. */
  function QuotedLine(key: string, value: string): string {
    key + " = \"" + value + "\""
  }

  /** A value with no quote, newline or `[` that starts and ends with a non-space character. */
  predicate PlainValue(value: string) {
    && |value| > 0 && TomlSection.NoQuote(value) && NoNewline(value) && !IsSpace(value[0]) && !IsSpace(value[|value| - 1])
    && NoBracket(value)
  }

  /** A line `key = "value"` with a word key and a plain value reads as that key and value. */
  lemma QuotedLineEntry(key: string, value: string)
    requires |key| > 0 && AllWord(key) && PlainValue(value)
    ensures TomlSection.MatchLine(QuotedLine(key, value)) == Some(TomlSection.Entry(key, value))
  {
    var v := TomlSection.ValueShape(" ", true, value, true, "");
    var d := TomlSection.LineShape("", key, " ", v);
    assert AllSpace(" ") by { assert " "[0] == ' '; }
    assert v.Valid();
    assert d.Text() == QuotedLine(key, value);
    TomlSection.LineComplete(d);
    TrimNoop(value);
  }

  predicate NoBracket(s: string) {
    forall i :: 0 <= i < |s| ==> s[i] != '['
  }

  lemma NoBracketConcat(a: string, b: string)
    requires NoBracket(a) && NoBracket(b)
    ensures NoBracket(a + b)
  {
    assert forall i :: |a| <= i < |a + b| ==> (a + b)[i] == b[i - |a|];
  }

  lemma QuotedLineChars(key: string, value: string)
    requires AllWord(key) && PlainValue(value)
    ensures NoBracket(QuotedLine(key, value)) && NoNewline(QuotedLine(key, value))
  {
    var s := QuotedLine(key, value);
    forall i | 0 <= i < |s|
      ensures s[i] != '[' && s[i] != '\n'
    {
      if i < |key| {
        assert s[i] == key[i];
      } else if |key| + 4 <= i < |key| + 4 + |value| {
        assert s[i] == value[i - |key| - 4];
      }
    }
  }

  /** The example configuration file used below: a `pm` section setting an account and a user. */
  const ExampleLine1: string := QuotedLine("account", "abc")
  const ExampleLine2: string := QuotedLine("user", "bob")
  const ExampleBody: string := "\n" + ExampleLine1 + "\n" + ExampleLine2
  const ExampleFile: string := TomlSection.Header("pm") + ExampleBody

  lemma ExamplePlain()
    ensures AllWord("account") && AllWord("user") && PlainValue("abc") && PlainValue("bob")
  {
  }

  lemma ExampleSection()
    ensures TomlSection.SectionText(ExampleFile, "pm") == Some(ExampleBody)
  {
    var h := TomlSection.Header("pm");
    assert ExampleFile[0..|h|] == h;
    TomlSection.IndexOfFirst(ExampleFile, h, 0);
    assert ExampleFile[|h|..] == ExampleBody;
    ExamplePlain();
    QuotedLineChars("account", "abc");
    QuotedLineChars("user", "bob");
    assert NoBracket("\n") by { assert "\n"[0] == '\n'; }
    NoBracketConcat("\n", ExampleLine1);
    NoBracketConcat("\n" + ExampleLine1, "\n");
    NoBracketConcat("\n" + ExampleLine1 + "\n", ExampleLine2);
    TomlSection.NoBracketNoBoundary(ExampleBody);
    assert ExampleBody[..|ExampleBody|] == ExampleBody;
  }

  lemma ExampleLines()
    ensures SplitLines(ExampleBody) == ["", ExampleLine1, ExampleLine2]
  {
    var lines := ["", ExampleLine1, ExampleLine2];
    assert lines[1..][1..] == [ExampleLine2];
    assert JoinLines(lines[1..]) == ExampleLine1 + "\n" + ExampleLine2;
    assert JoinLines(lines) == "" + "\n" + (ExampleLine1 + "\n" + ExampleLine2);
    assert JoinLines(lines) == ExampleBody;
    ExamplePlain();
    QuotedLineChars("account", "abc");
    QuotedLineChars("user", "bob");
    SplitJoinLines(lines);
  }

  lemma BlankLineNoEntry()
    ensures TomlSection.MatchLine("").None?
  {
  }

  lemma AssignThree(es: seq<Option<TomlSection.Entry>>, e1: TomlSection.Entry, e2: TomlSection.Entry)
    requires |es| == 3 && es[0].None? && es[1] == Some(e1) && es[2] == Some(e2)
    requires e1.key != TomlSection.ProtoKey && e2.key != TomlSection.ProtoKey
    ensures TomlSection.Assign(es) == map[e1.key := e1.value][e2.key := e2.value]
  {
    assert |es[..2][..1][..0]| == 0;
    assert TomlSection.Assign(es[..2][..1]) == map[];
    assert TomlSection.Assign(es[..2]) == map[e1.key := e1.value];
  }

  lemma ExampleParse()
    ensures TomlSection.ParseTomlConnection(ExampleFile, "pm") == map["account" := "abc", "user" := "bob"]
  {
    ExampleSection();
    ExampleLines();
    ExamplePlain();
    var lines := ["", ExampleLine1, ExampleLine2];
    assert TomlSection.ParseTomlConnection(ExampleFile, "pm") == TomlSection.ParseLines(lines);
    QuotedLineEntry("account", "abc");
    QuotedLineEntry("user", "bob");
    BlankLineNoEntry();
    var e1 := TomlSection.Entry("account", "abc");
    var e2 := TomlSection.Entry("user", "bob");
    var es := TomlSection.MatchLines(lines);
    assert es[0] == TomlSection.MatchLine(lines[0]);
    assert es[1] == TomlSection.MatchLine(lines[1]);
    assert es[2] == TomlSection.MatchLine(lines[2]);
    AssignThree(es, e1, e2);
  }

  /** With no environment variables, the example file supplies the account and the user. */
  lemma ExampleFromFile()
    ensures GetConfig(NoEnv, Some(ExampleFile), None).account == "abc"
    ensures GetConfig(NoEnv, Some(ExampleFile), None).auth == Login("bob", DefaultAuthenticator)
  {
    ExampleParse();
  }

  /** The account variable overrides the example file's account. */
  lemma ExampleEnvOverrides()
    ensures GetConfig(NoEnv.(account := Some("xyz")), Some(ExampleFile), None).account == "xyz"
  {
  }
}
