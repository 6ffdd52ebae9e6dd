/** ppcgrader's configuration and server helpers: where a setting's value
    comes from, the explanation shown when it is missing, the home
    configuration folder, the JSON configuration files, and how an HTTP error
    answer of the server is read. */
module ApiTools {
  import opened Strs

  // ---------------------------------------------------------------------------
  // EnvProperty
  // ---------------------------------------------------------------------------

  /** The dictionaries a setting is looked up in, and the home configuration
      folder that explanations name. */
  datatype Sources = Sources(
    factory: map<string, string>,
    home: map<string, string>,
    path: map<string, string>,
    homePath: string)

  /** get_required's answer: the value, or the sys.exit carrying a message. */
  datatype Required = Got(value: string) | Exit(message: string)

  const ENV_HEAD: string := " \U{00B7} Set the environment variable "
  const FILE_HEAD: string := " \U{00B7} Create a file \"config.json\" "
  const FILE_MIDDLE: string := "with contents like this:\n\n{\n    \""
  const FILE_TAIL: string := "\": \"place the value here\"\n}\n"
  const CURRENT_DIR: string := "the current directory"
  const EITHER: string := "in either "
  const OR_HERE: string := " or\n   " + CURRENT_DIR + ", "
  const HERE: string := "in " + CURRENT_DIR + ", "
  const IN: string := "in "
  const IN_TAIL: string := ",\n   "
  const WAYS: string := "\nThe value can be provided in the following ways:\n"
  const NOT_CONFIGURED: string := "not configured"

  /** A setting whose value is taken from the environment, a configuration
      file in the current directory, one in the home configuration folder, or
      the built-in defaults. `getenv` stands for os.getenv. */
  class EnvProperty {
    const sources: Sources
    const name: string
    const humanName: string
    const env: Option<string>
    const path: bool
    const home: bool
    const factory: bool
    const help: Option<string>
    var value: Option<string>

    constructor (sources: Sources, name: string, humanName: string, env: Option<string>,
                 path: bool, home: bool, factory: bool, help: Option<string>,
                 getenv: string -> Option<string>)
      ensures this.sources == sources && this.name == name && this.humanName == humanName
      ensures this.env == env && this.path == path && this.home == home && this.factory == factory
      ensures this.help == help
      ensures value == Chosen(getenv)
    {
      this.sources := sources;
      this.name := name;
      this.humanName := humanName;
      this.env := env;
      this.path := path;
      this.home := home;
      this.factory := factory;
      this.help := help;
      value := None;
      new;
      value := Collect(getenv);
    }

    /** Some enabled source holds a value for the setting. */
    predicate Defined(getenv: string -> Option<string>)
    {
      (env.Some? && getenv(env.value).Some?)
      || (path && name in sources.path)
      || (home && name in sources.home)
      || (factory && name in sources.factory)
    }

    /** The value by precedence: the environment variable first, then the
        file in the current directory, then the home file, then the defaults;
        a source is consulted only when it is enabled. */
    function Chosen(getenv: string -> Option<string>): (r: Option<string>)
      ensures r.None? <==> !Defined(getenv)
      ensures r.Some? ==>
        (env.Some? && r == getenv(env.value))
        || (path && name in sources.path && r.value == sources.path[name])
        || (home && name in sources.home && r.value == sources.home[name])
        || (factory && name in sources.factory && r.value == sources.factory[name])
    {
      if env.Some? && getenv(env.value).Some? then getenv(env.value)
      else if path && name in sources.path then Some(sources.path[name])
      else if home && name in sources.home then Some(sources.home[name])
      else if factory && name in sources.factory then Some(sources.factory[name])
      else None
    }

    /** collect: every enabled source that holds the name overwrites what the
        sources before it gave, so the last one in the order defaults, home,
        path, environment wins. */
    method Collect(getenv: string -> Option<string>) returns (v: Option<string>)
      ensures v == Chosen(getenv)
    {
      v := None;
      if factory && name in sources.factory {
        v := Some(sources.factory[name]);
      }
      if home && name in sources.home {
        v := Some(sources.home[name]);
      }
      if path && name in sources.path {
        v := Some(sources.path[name]);
      }
      if env.Some? {
        var envValue := getenv(env.value);
        if envValue.Some? {
          v := envValue;
        }
      }
    }

    /** The way to set the environment variable. */
    function EnvMethod(variable: string): string
    {
      ENV_HEAD + (variable + ".")
    }

    /** Where the configuration file may be put. */
    function Location(): string
    {
      if path && home then EITHER + sources.homePath + OR_HERE
      else if path then HERE
      else IN + sources.homePath + IN_TAIL
    }

    /** The way to write the configuration file. */
    function FileMethod(): string
    {
      FILE_HEAD + FileText()
    }

    function FileText(): string
    {
      Location() + FILE_MIDDLE + name + FILE_TAIL
    }

    /** The ways explain lists, in order. */
    function Methods(): seq<string>
    {
      (if env.Some? then [EnvMethod(env.value)] else [])
      + (if path || home then [FileMethod()] else [])
    }

    function HelpBlock(): string
    {
      if help.Some? then "\n" + help.value + "\n" else ""
    }

    /** The explanation shown for a setting in the given status. */
    function Explanation(status: string): string
    {
      humanName + " " + status + ".\n" + HelpBlock() + WAYS + Join(Methods(), "\n")
    }

    /** explain: collects the ways in a list, then joins them under the
        heading and the help. */
    method Explain(status: string) returns (text: string)
      ensures text == Explanation(status)
    {
      var methods: seq<string> := [];
      if env.Some? {
        methods := methods + [ENV_HEAD + (env.value + ".")];
      }
      if path || home {
        var location: string;
        if path && home {
          location := EITHER + sources.homePath + OR_HERE;
        } else if path {
          location := HERE;
        } else {
          location := IN + sources.homePath + IN_TAIL;
        }
        assert location == Location();
        methods := methods + [FILE_HEAD + (location + FILE_MIDDLE + name + FILE_TAIL)];
      }
      assert methods == Methods();
      var joined := Join(methods, "\n");
      var helpText := if help.Some? then "\n" + help.value + "\n" else "";
      text := humanName + " " + status + ".\n" + helpText + WAYS + joined;
    }

    /** get_required: the value when there is one; otherwise the program exits
        with the explanation for a setting that is not configured. */
    method GetRequired() returns (r: Required)
      ensures value.Some? ==> r == Got(value.value)
      ensures value.None? ==> r == Exit(Explanation(NOT_CONFIGURED))
    {
      if value.Some? {
        return Got(value.value);
      }
      var text := Explain(NOT_CONFIGURED);
      r := Exit(text);
    }

    /** The environment variable is offered exactly when the setting has
        one ... */
    lemma EnvOffered()
      ensures env.Some? <==> exists i :: 0 <= i < |Methods()| && StartsWith(Methods()[i], ENV_HEAD)
    {
      var m := Methods();
      if env.Some? {
        HeadOf(ENV_HEAD, env.value + ".");
        assert StartsWith(m[0], ENV_HEAD);
      } else {
        forall i | 0 <= i < |m| ensures !StartsWith(m[i], ENV_HEAD) {
          HeadsDiffer(FILE_HEAD, FileText(), ENV_HEAD, 3);
        }
      }
    }

    /** ... and the configuration file exactly when a file source is
        enabled. */
    lemma FileOffered()
      ensures path || home <==> exists i :: 0 <= i < |Methods()| && StartsWith(Methods()[i], FILE_HEAD)
    {
      var m := Methods();
      if path || home {
        HeadOf(FILE_HEAD, FileText());
        assert StartsWith(m[|m| - 1], FILE_HEAD);
      } else {
        forall i | 0 <= i < |m| ensures !StartsWith(m[i], FILE_HEAD) {
          HeadsDiffer(ENV_HEAD, env.value + ".", FILE_HEAD, 3);
        }
      }
    }

    /** The explanation opens with the setting's name and its status. */
    lemma ExplanationHead(status: string)
      ensures StartsWith(Explanation(status), humanName + " " + status + ".\n")
    {
      HeadOfThree(humanName + " " + status + ".\n", HelpBlock(), WAYS, Join(Methods(), "\n"));
    }

    /** Every way offered appears in the explanation. */
    lemma ExplanationLists(status: string, i: nat) returns (k: int)
      requires i < |Methods()|
      ensures OccursAt(Methods()[i], Explanation(status), k)
    {
      var head := humanName + " " + status + ".\n" + HelpBlock() + WAYS;
      var k' := JoinHasPiece(Methods(), "\n", i);
      OccursWithin(Methods()[i], Join(Methods(), "\n"), k', head, "");
      assert head + Join(Methods(), "\n") + "" == Explanation(status);
      k := |head| + k';
    }

    /** The file location names the home folder when the home file is
        enabled ... */
    lemma LocationNamesHome() returns (k: int)
      requires home
      ensures OccursAt(sources.homePath, Location(), k)
    {
      var h := sources.homePath;
      if path {
        k := |EITHER|;
        assert Location() == EITHER + h + OR_HERE;
        assert Location()[k..k + |h|] == h;
      } else {
        k := |IN|;
        assert Location() == IN + h + IN_TAIL;
        assert Location()[k..k + |h|] == h;
      }
    }

    /** ... and the current directory when the file there is enabled. */
    lemma LocationNamesHere() returns (k: int)
      requires path
      ensures OccursAt(CURRENT_DIR, Location(), k)
    {
      if home {
        var left := EITHER + sources.homePath + " or\n   ";
        assert Location() == left + CURRENT_DIR + ", ";
        k := |left|;
        assert Location()[k..k + |CURRENT_DIR|] == CURRENT_DIR;
      } else {
        k := |IN|;
        assert Location() == IN + CURRENT_DIR + ", ";
        assert Location()[k..k + |CURRENT_DIR|] == CURRENT_DIR;
      }
    }
  }

  lemma HeadOf(h: string, t: string)
    ensures StartsWith(h + t, h)
  {
    assert (h + t)[..|h|] == h;
  }

  lemma HeadOfThree(h: string, a: string, b: string, c: string)
    ensures StartsWith(h + a + b + c, h)
  {
    assert (h + a + b + c)[..|h|] == h;
  }

  /** Texts that differ at a position within both heads start differently. */
  lemma HeadsDiffer(a: string, t: string, h: string, i: nat)
    requires i < |a| && i < |h| && a[i] != h[i]
    ensures !StartsWith(a + t, h)
  {
    assert (a + t)[i] == a[i];
  }

  // ---------------------------------------------------------------------------
  // get_home_config_path
  // ---------------------------------------------------------------------------

  const PPC_DIR: string := "ppc/"
  const MAC_CONFIG: string := "~/Library/Application Support/ppc/"
  const LINUX_CONFIG: string := "~/.config/ppc/"

  /** os.path.join(a, b) on POSIX: an absolute b replaces a; otherwise a "/"
      is put between them unless a is empty or already ends with one. */
  function PathJoin(a: string, b: string): (r: string)
    ensures EndsWith(r, b)
    ensures !StartsWith(b, "/") ==> StartsWith(r, a) && |a| + |b| <= |r| <= |a| + |b| + 1
    ensures !StartsWith(b, "/") ==>
      (|r| == |a| + |b| + 1 <==> a != [] && a[|a| - 1] != '/')
    ensures !StartsWith(b, "/") && |r| == |a| + |b| + 1 ==> r[|a|] == '/'
  {
    if StartsWith(b, "/") then b
    else if a == [] || a[|a| - 1] == '/' then a + b
    else a + "/" + b
  }

  /** get_home_config_path: $XDG_CONFIG_HOME/ppc/, else the macOS
      Application Support folder, else ~/.config/ppc/. `xdg` is the
      environment variable, `system` what platform.system() answers and
      `expandUser` stands for os.path.expanduser. */
  function HomeConfigPath(xdg: Option<string>, system: string, expandUser: string -> string): (r: string)
    ensures xdg.Some? ==> StartsWith(r, xdg.value) && EndsWith(r, PPC_DIR)
    ensures xdg.None? && system == "Darwin" ==> r == expandUser(MAC_CONFIG)
    ensures xdg.None? && system != "Darwin" ==> r == expandUser(LINUX_CONFIG)
  {
    if xdg.Some? then
      assert PPC_DIR[0] != '/';
      PathJoin(xdg.value, PPC_DIR)
    else if system == "Darwin" then expandUser(MAC_CONFIG)
    else expandUser(LINUX_CONFIG)
  }

  // ---------------------------------------------------------------------------
  // load_json_config
  // ---------------------------------------------------------------------------

  /** JSON values as json.load returns them (numbers are integers here). */
  datatype Json =
    | JNull
    | JBool(b: bool)
    | JInt(i: int)
    | JString(s: string)
    | JList(items: seq<Json>)
    | JObject(fields: map<string, Json>)

  /** What json.load gives: a value, or a JSONDecodeError and its message. */
  datatype Decoded = Parsed(json: Json) | DecodeError(message: string)

  /** A configuration file's settings, or the sys.exit and its message. */
  datatype Config = Loaded(values: map<string, string>) | ConfigExit(message: string)

  const READ_ERROR: string := "Error while reading configuration file "
  const NOT_OBJECT: string := "Expected a JSON object like {}"
  const NOT_STRINGS: string := "Expected string values"

  function ReadError(absPath: string, e: string): string
  {
    READ_ERROR + absPath + ":\n" + e
  }

  /** The entries whose value is not null. */
  function Present(fields: map<string, Json>): (r: map<string, Json>)
    ensures forall k :: k in r <==> k in fields && fields[k] != JNull
    ensures forall k :: k in r ==> r[k] == fields[k]
  {
    map k | k in fields && fields[k] != JNull :: fields[k]
  }

  predicate AllStrings(fields: map<string, Json>)
  {
    forall k :: k in fields ==> fields[k].JString?
  }

  function Strings(fields: map<string, Json>): (r: map<string, string>)
    requires AllStrings(fields)
    ensures forall k :: k in r <==> k in fields
    ensures forall k :: k in r ==> fields[k] == JString(r[k])
  {
    map k | k in fields :: fields[k].s
  }

  /** load_json_config: a missing file gives no settings; a file must hold a
      JSON object, whose null entries are dropped and whose other entries must
      be strings. `fileExists` is os.path.exists, `contents` what json.load
      reads and `absPath` os.path.abspath of the path. */
  function LoadJsonConfig(fileExists: bool, contents: Decoded, absPath: string): (r: Config)
    ensures !fileExists ==> r == Loaded(map[])
    ensures fileExists && r.Loaded? ==>
      contents.Parsed? && contents.json.JObject?
      && (forall k :: k in r.values <==> k in contents.json.fields && contents.json.fields[k] != JNull)
      && (forall k :: k in r.values ==> contents.json.fields[k] == JString(r.values[k]))
    ensures fileExists && contents.DecodeError? ==> r == ConfigExit(ReadError(absPath, contents.message))
    ensures fileExists && contents.Parsed? && !contents.json.JObject? ==> r == ConfigExit(ReadError(absPath, NOT_OBJECT))
    ensures fileExists && contents.Parsed? && contents.json.JObject? ==>
      (r.ConfigExit? <==> exists k :: k in contents.json.fields && contents.json.fields[k] != JNull && !contents.json.fields[k].JString?)
    ensures fileExists && r.ConfigExit? && contents.Parsed? && contents.json.JObject? ==>
      r.message == ReadError(absPath, NOT_STRINGS)
  {
    if !fileExists then Loaded(map[])
    else match contents
      case DecodeError(e) => ConfigExit(ReadError(absPath, e))
      case Parsed(data) =>
        if !data.JObject? then ConfigExit(ReadError(absPath, NOT_OBJECT))
        else
          var kept := Present(data.fields);
          if !AllStrings(kept) then ConfigExit(ReadError(absPath, NOT_STRINGS))
          else Loaded(Strings(kept))
  }

  // ---------------------------------------------------------------------------
  // API
  // ---------------------------------------------------------------------------

  /** API.__init__ keeps the server address without its trailing slashes. */
  function ApiUrl(url: string): (r: string)
    ensures StartsWith(url, r)
    ensures r == [] || r[|r| - 1] != '/'
    ensures forall i :: |r| <= i < |url| ==> url[i] == '/'
  {
    RStrip(url, {'/'})
  }

  /** Trimming an address already trimmed changes nothing. */
  lemma ApiUrlIdempotent(url: string)
    ensures ApiUrl(ApiUrl(url)) == ApiUrl(url)
  {
    var r := ApiUrl(url);
    if r != [] {
      assert r[|r| - 1] !in {'/'};
    }
  }

  /** An APIError's fields. */
  datatype ApiError = ApiError(status: int, reason: Option<string>, unexpected: bool, message: string)

  /** What make_json_request raises on an HTTP error: an APIError, or a
      KeyError for a key the server's answer lacks. */
  datatype Raised = Api(error: ApiError) | KeyError(key: string)

  /** How far the error body reads as the server's structured error. */
  datatype Reading = Structured(error: ApiError) | Unreadable | Missing(key: string)

  /** Python's truth value of a JSON value. */
  function Truthy(j: Json): bool
  {
    match j
    case JNull => false
    case JBool(b) => b
    case JInt(i) => i != 0
    case JString(s) => s != ""
    case JList(items) => items != []
    case JObject(fields) => fields != map[]
  }

  /** int() of a JSON value; None for the TypeError or ValueError it raises. */
  function IntOf(j: Json): Option<int>
  {
    match j
    case JBool(b) => Some(if b then 1 else 0)
    case JInt(i) => Some(i)
    case JString(s) => PyInt(s)
    case _ => None
  }

  /** str() of a JSON value; `repr` gives the text of lists and objects. */
  function StrOf(j: Json, repr: Json -> string): string
  {
    match j
    case JNull => "None"
    case JBool(b) => if b then "True" else "False"
    case JInt(i) => IntText(i)
    case JString(s) => s
    case _ => repr(j)
  }

  /** str() of an HTTPError with the given code and reason phrase. */
  function HttpErrorText(code: int, msg: string): string
  {
    "HTTP Error " + IntText(code) + ": " + msg
  }

  /** The error made from the HTTP status alone. */
  function Fallback(code: int, msg: string): (e: ApiError)
    ensures e.status == code && e.reason.None?
    ensures e.unexpected <==> code >= 500
  {
    ApiError(code, None, code >= 500, HttpErrorText(code, msg))
  }

  /** The try block: the body is decoded, subscripted and converted field by
      field. A body that is not an object fails on the first subscript with a
      TypeError, and so does an int() of a list, an object or null. */
  function ReadErrorBody(body: Decoded, repr: Json -> string): (r: Reading)
    ensures r.Structured? ==> r.error.reason.Some?
    ensures r.Missing? ==> body.Parsed? && body.json.JObject? && r.key !in body.json.fields
    ensures !(body.Parsed? && body.json.JObject?) ==> r == Unreadable
  {
    if !body.Parsed? || !body.json.JObject? then Unreadable
    else
      var f := body.json.fields;
      if "status" !in f then Missing("status")
      else match IntOf(f["status"])
        case None => Unreadable
        case Some(status) =>
          if "reason" !in f then Missing("reason")
          else if "unexpected" !in f then Missing("unexpected")
          else if "message" !in f then Missing("message")
          else Structured(ApiError(status, Some(StrOf(f["reason"], repr)), Truthy(f["unexpected"]), StrOf(f["message"], repr)))
  }

  /** The HTTPError handler as written: JSONDecodeError, TypeError,
      IndexError and ValueError fall back to the HTTP status, but a KeyError
      escapes. */
  function ErrorFromResponse(code: int, msg: string, body: Decoded, repr: Json -> string): (r: Raised)
    ensures !(body.Parsed? && body.json.JObject?) ==> r == Api(Fallback(code, msg))
    ensures r.KeyError? <==> ReadErrorBody(body, repr).Missing?
    ensures r.Api? && r.error.reason.None? ==> r.error.status == code && (r.error.unexpected <==> code >= 500)
  {
    match ReadErrorBody(body, repr)
    case Structured(e) => Api(e)
    case Unreadable => Api(Fallback(code, msg))
    case Missing(key) => KeyError(key)
  }

  /** A JSON object without a "status" entry, such as an empty one sent with
      a 404, ends in a KeyError rather than an APIError. */
  lemma EmptyObjectEscapes(repr: Json -> string)
    ensures ErrorFromResponse(404, "Not Found", Parsed(JObject(map[])), repr) == KeyError("status")
  {
  }

  /** The handler with KeyError caught as well: every HTTP error becomes an
      APIError, from the body when it holds the four fields and from the
      status otherwise. */
  function ErrorFromResponseCaught(code: int, msg: string, body: Decoded, repr: Json -> string): (r: ApiError)
    ensures !ReadErrorBody(body, repr).Structured? ==> r == Fallback(code, msg)
    ensures r.reason.None? ==> r.status == code && (r.unexpected <==> code >= 500)
  {
    match ReadErrorBody(body, repr)
    case Structured(e) => e
    case _ => Fallback(code, msg)
  }

  /** The corrected handler raises what the written one raises whenever that
      one raises an APIError, and an APIError from the status alone when it
      lets a KeyError escape. */
  lemma CaughtAgrees(code: int, msg: string, body: Decoded, repr: Json -> string)
    ensures ErrorFromResponse(code, msg, body, repr).Api? ==>
      ErrorFromResponseCaught(code, msg, body, repr) == ErrorFromResponse(code, msg, body, repr).error
    ensures ErrorFromResponse(code, msg, body, repr).KeyError? ==>
      ErrorFromResponseCaught(code, msg, body, repr) == Fallback(code, msg)
  {
  }
}
