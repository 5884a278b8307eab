/**
  The argument registry of a command-line application: the flags it
  declares, the probes that tell whether a flag was given on the command
  line, the extraction of the token that follows a data flag, and the
  generated help and version texts.

  The process's argument vector is an explicit parameter `argv` of every
  query. Like the process's own vector it begins with the program path,
  and nothing skips that entry.
 */
module Cliply {
  import opened Errors
  import opened Coutils
  import opened Text

  /** What is known about a declared flag: its help text and whether it takes data. */
  datatype ArgData = ArgData(help: string, data: bool)

  /** Creates flag information, keeping both inputs as given. */
  function NewArgData(help: string, data: bool): (a: ArgData)
    ensures a.help == help && a.data == data
  {
    ArgData(help, data)
  }

  // ---------------------------------------------------------------------
  // The three spellings of a flag

  /** `-` followed by the first character of the name. */
  function ShortForm(name: string): string
    requires |name| > 0
  {
    "-" + [name[0]]
  }

  /** `--` followed by the whole name. */
  function LongForm(name: string): string
  {
    "--" + name
  }

  /** The spellings of a flag in the order extraction tries them: short, long, bare. */
  function Spellings(name: string): seq<string>
    requires |name| > 0
  {
    [ShortForm(name), LongForm(name), name]
  }

  /** `tok` spells the flag `name`, described character by character. */
  predicate IsSpellingOf(tok: string, name: string)
    requires |name| > 0
  {
    || (|tok| == 2 && tok[0] == '-' && tok[1] == name[0])
    || (|tok| == |name| + 2 && tok[..2] == "--" && tok[2..] == name)
    || tok == name
  }

  /** The spellings listed by `Spellings` are exactly the tokens `IsSpellingOf` describes. */
  lemma SpellingsCharacterized(tok: string, name: string)
    requires |name| > 0
    ensures tok in Spellings(name) <==> IsSpellingOf(tok, name)
  {
    if |tok| == 2 && tok[0] == '-' && tok[1] == name[0] {
      assert tok == ShortForm(name);
    }
    if |tok| == |name| + 2 && tok[..2] == "--" && tok[2..] == name {
      assert tok == tok[..2] + tok[2..];
    }
  }

  /** Some spelling of `name` occurs in `argv` exactly when some token of `argv` spells `name`. */
  lemma SomeSpellingOccurs(argv: seq<string>, name: string)
    requires |name| > 0
    ensures (ShortForm(name) in argv || LongForm(name) in argv || name in argv)
            <==> exists i :: 0 <= i < |argv| && IsSpellingOf(argv[i], name)
  {
    forall i | 0 <= i < |argv| {
      SpellingsCharacterized(argv[i], name);
    }
  }

  // ---------------------------------------------------------------------
  // Extraction of the token after a spelling

  /** The message of the error for a flag that is the last token. */
  function NoDataMessage(spelling: string): string
  {
    "No data supplied to \"" + spelling + "\"."
  }

  /** The message of the defensive error for a spelling that cannot be located. */
  function NotFoundMessage(spelling: string): string
  {
    "\"" + spelling + "\" not found in arguments."
  }

  /**
    One branch of the extraction: locate the first occurrence of
    `spelling` and give back the token after it, or fail when there is
    none. A spelling that does not occur at all is the defensive error.
   */
  function ValueAfter(argv: seq<string>, spelling: string): (r: Result<string>)
    ensures spelling !in argv ==> r == Err(New(NotFoundMessage(spelling)))
    ensures spelling in argv && r.Err? ==>
              argv[|argv| - 1] == spelling && r.error == New(NoDataMessage(spelling))
    ensures r.Ok? ==> exists i :: 0 < i < |argv| && argv[i - 1] == spelling && r.value == argv[i]
  {
    match GetIndex(argv, spelling)
    case None => Err(New(NotFoundMessage(spelling)))
    case Some(i) =>
      if i + 1 < |argv| then Ok(argv[i + 1])
      else Err(New(NoDataMessage(spelling)))
  }

  /** With `i` the first position of `spelling`, the extraction reads position `i + 1`. */
  lemma ValueAfterFirstOccurrence(argv: seq<string>, spelling: string, i: nat)
    requires i < |argv| && argv[i] == spelling && spelling !in argv[..i]
    ensures ValueAfter(argv, spelling) ==
              if i + 1 < |argv| then Ok(argv[i + 1]) else Err(New(NoDataMessage(spelling)))
  {
    GetIndexIsFirst(argv, spelling, i);
  }

  // ---------------------------------------------------------------------
  // Help text

  /**
    A help-text line: the short, long and bare spellings of a flag, a
    padding column, and the flag's help text.
   */
  function FlagLine(first: string, long: string, pad: string, msg: string): string
  {
    "-" + first + " --" + long + " " + long + pad + msg
  }

  /** A help-text line holds a newline only if one of its parts does. */
  lemma FlagLineNoNewline(first: string, long: string, pad: string, msg: string)
    requires NoNewline(first) && NoNewline(long) && NoNewline(pad) && NoNewline(msg)
    ensures NoNewline(FlagLine(first, long, pad, msg))
  {
  }

  /** The fixed help-text line for the built-in `help` flag. */
  const HelpFlagLine: string := FlagLine("h", "help", "           ", "displays this message")

  /** The fixed help-text line for the built-in `version` flag. */
  const VersionFlagLine: string := FlagLine("v", "version", "     ", "displays app info")

  /** The column written between a flag's spellings and its help text. */
  function DataColumn(data: bool): string
  {
    if data then " DATA  " else "        "
  }

  /** The help-text line of a declared flag. */
  function ArgLine(key: string, value: ArgData): string
    requires |key| > 0
  {
    FlagLine([key[0]], key, DataColumn(value.data), value.help)
  }

  /** Where the data column starts in the line of `key`. */
  function ColumnStart(key: string): nat
  {
    2 * |key| + 6
  }

  /**
    Reads flag information back from a help-text line: a `D` just after
    the spellings marks a data flag, and the help text follows the
    column, which is seven characters wide for a data flag and eight
    otherwise.
   */
  function ReadArgLine(key: string, line: string): ArgData
  {
    var p := ColumnStart(key);
    if |line| > p + 1 && line[p + 1] == 'D' then
      ArgData(if |line| >= p + 7 then line[p + 7..] else "", true)
    else
      ArgData(if |line| >= p + 8 then line[p + 8..] else "", false)
  }

  /**
    A flag's line starts with its three spellings separated by spaces, its
    column reads " DATA  " exactly when the flag takes data, and the flag
    information can be read back from it.
   */
  lemma ArgLineDescribesFlag(key: string, value: ArgData)
    requires |key| > 0
    ensures var line, p := ArgLine(key, value), ColumnStart(key);
      && |line| >= p + 7
      && line[..p] == ShortForm(key) + " " + LongForm(key) + " " + key
      && (line[p..p + 7] == " DATA  " <==> value.data)
      && ReadArgLine(key, line) == value
  {
    var line, p := ArgLine(key, value), ColumnStart(key);
    var prefix := ShortForm(key) + " " + LongForm(key) + " " + key;
    assert |prefix| == p;
    assert line == prefix + DataColumn(value.data) + value.help;
    assert line[..p] == prefix;
    assert line[p..p + |DataColumn(value.data)|] == DataColumn(value.data);
    assert line[p + |DataColumn(value.data)|..] == value.help;
    if !value.data {
      assert line[p..p + 7][1] == ' ';
    }
  }

  /** A flag's line holds a newline only if its name or its help text does. */
  lemma ArgLineNoNewline(key: string, value: ArgData)
    requires |key| > 0 && NoNewline(key) && NoNewline(value.help)
    ensures NoNewline(ArgLine(key, value))
  {
    assert key[0] in key;
    FlagLineNoNewline([key[0]], key, DataColumn(value.data), value.help);
  }

  /** `order` lists every key of `reg` exactly once. */
  predicate IsOrderOf(order: seq<string>, reg: map<string, ArgData>)
  {
    && |order| == |reg|
    && (forall k :: k in order ==> k in reg)
    && (forall k :: k in reg ==> k in order)
    && (forall i, j :: 0 <= i < j < |order| ==> order[i] != order[j])
  }

  /** Every key of the registry is a non-empty name. */
  predicate NamedKeys(reg: map<string, ArgData>)
  {
    forall k :: k in reg ==> |k| > 0
  }

  /** No key and no help text of the registry holds a newline. */
  predicate NewlineFree(reg: map<string, ArgData>)
  {
    forall k :: k in reg ==> NoNewline(k) && NoNewline(reg[k].help)
  }

  /** The lines of the declared flags, in the order `order` visits them. */
  function ArgLines(reg: map<string, ArgData>, order: seq<string>): (ls: seq<string>)
    requires NamedKeys(reg) && forall k :: k in order ==> k in reg
  {
    seq(|order|, i requires 0 <= i < |order| => ArgLine(order[i], reg[order[i]]))
  }

  /** All help-text lines: the declared flags, then `help`, then `version`. */
  function HelpLines(reg: map<string, ArgData>, order: seq<string>): seq<string>
    requires NamedKeys(reg) && forall k :: k in order ==> k in reg
  {
    ArgLines(reg, order) + [HelpFlagLine, VersionFlagLine]
  }

  /**
    The help text, split at its newlines, is one line per declared flag
    (from which that flag's information reads back), then the `help` line,
    then the `version` line, provided no name or help text holds a newline.
   */
  lemma HelpTextDescribesRegistry(reg: map<string, ArgData>, order: seq<string>)
    requires NamedKeys(reg) && IsOrderOf(order, reg)
    requires NewlineFree(reg)
    ensures var ls := Lines(Join(HelpLines(reg, order), "\n"));
      && |ls| == |reg| + 2
      && ls[|reg|] == HelpFlagLine
      && ls[|reg| + 1] == VersionFlagLine
      && forall i :: 0 <= i < |reg| ==> ReadArgLine(order[i], ls[i]) == reg[order[i]]
  {
    var lines := HelpLines(reg, order);
    forall i | 0 <= i < |lines|
      ensures NoNewline(lines[i])
    {
      if i < |order| {
        ArgLineNoNewline(order[i], reg[order[i]]);
      } else {
        FlagLineNoNewline("h", "help", "           ", "displays this message");
        FlagLineNoNewline("v", "version", "     ", "displays app info");
      }
    }
    LinesOfJoin(lines);
    forall i | 0 <= i < |reg|
      ensures ReadArgLine(order[i], lines[i]) == reg[order[i]]
    {
      ArgLineDescribesFlag(order[i], reg[order[i]]);
    }
  }

  /** `text` splits into `n` lines followed by the `help` and the `version` line. */
  predicate HelpTextLines(text: string, n: nat)
  {
    var ls := Lines(text);
    |ls| == n + 2 && ls[n] == HelpFlagLine && ls[n + 1] == VersionFlagLine
  }

  /**
    Whatever the order of the declared flags, the help text ends with the
    `version` line, and, when no name or help text holds a newline, it is
    registry size plus two lines, the last two being the fixed ones.
   */
  lemma HelpTextShape(reg: map<string, ArgData>, order: seq<string>)
    requires NamedKeys(reg) && IsOrderOf(order, reg)
    ensures var text := Join(HelpLines(reg, order), "\n");
      && |text| >= |VersionFlagLine|
      && text[|text| - |VersionFlagLine|..] == VersionFlagLine
      && (NewlineFree(reg) ==> HelpTextLines(text, |reg|))
  {
    var lines := HelpLines(reg, order);
    assert lines[|lines| - 1] == VersionFlagLine;
    JoinEndsWithLast(lines, "\n");
    if NewlineFree(reg) {
      HelpTextDescribesRegistry(reg, order);
    }
  }

  // ---------------------------------------------------------------------
  // The application

  /** An application: its name, version and author, and its declared flags. */
  class App {
    var name: string
    var version: string
    var author: string
    var args: map<string, ArgData>

    /** A new application, with no flag declared yet. */
    constructor (name: string, version: string, author: string)
      ensures this.name == name && this.version == version && this.author == author
      ensures args == map[]
    {
      this.name := name;
      this.version := version;
      this.author := author;
      args := map[];
    }

    /**
      Whether any spelling of `arg` occurs in `argv`. The declared flags
      play no part: an undeclared name is probed just the same.
     */
    function ArgWasUsed(argv: seq<string>, arg: string): (used: bool)
      requires |arg| > 0
      ensures used <==> exists i :: 0 <= i < |argv| && IsSpellingOf(argv[i], arg)
    {
      SomeSpellingOccurs(argv, arg);
      ShortForm(arg) in argv || LongForm(arg) in argv || arg in argv
    }

    /**
      Declares the flag `name`, replacing what was declared under that
      name before; nothing else changes.
     */
    method AddArg(name: string, help: string, data: bool)
      modifies this
      ensures args == old(args)[name := NewArgData(help, data)]
      ensures this.name == old(this.name) && version == old(version) && author == old(author)
    {
      var argData := NewArgData(help, data);
      args := args[name := argData];
    }

    /**
      The data given to the flag `name`: for a data flag, the token after
      the first occurrence of the first of its spellings (short, long,
      bare) that occurs in `argv`. A flag declared without data, or not
      given at all, yields the empty string, and the only error is a
      spelling that is the last token. The exact result for a data flag
      that is given is stated by `GetArgDataFirstSpelling` below.
     */
    function GetArgData(argv: seq<string>, name: string): (r: Result<string>)
      reads this
      requires name in args && |name| > 0
      ensures !args[name].data ==> r == Ok("")
      ensures !ArgWasUsed(argv, name) ==> r == Ok("")
      ensures r.Err? ==>
                && |argv| > 0
                && argv[|argv| - 1] in Spellings(name)
                && r.error == New(NoDataMessage(argv[|argv| - 1]))
      ensures r.Ok? && r.value != "" ==>
                exists i :: 0 < i < |argv| && argv[i - 1] in Spellings(name) && r.value == argv[i]
    {
      var short, long := ShortForm(name), LongForm(name);
      if args[name].data && short in argv then ValueAfter(argv, short)
      else if args[name].data && long in argv then ValueAfter(argv, long)
      else if args[name].data && name in argv then ValueAfter(argv, name)
      else Ok("")
    }

    /** Whether `-v`, `--version` or `version` occurs in `argv`. */
    function VersionIs(argv: seq<string>): (r: bool)
      ensures r <==> "-v" in argv || "--version" in argv || "version" in argv
    {
      SomeSpellingOccurs(argv, "version");
      assert ShortForm("version") == "-v" && LongForm("version") == "--version";
      ArgWasUsed(argv, "version")
    }

    /** Whether `-h`, `--help` or `help` occurs in `argv`. */
    function HelpIs(argv: seq<string>): (r: bool)
      ensures r <==> "-h" in argv || "--help" in argv || "help" in argv
    {
      SomeSpellingOccurs(argv, "help");
      assert ShortForm("help") == "-h" && LongForm("help") == "--help";
      ArgWasUsed(argv, "help")
    }

    /**
      The version text: `<name> v.<version>` on one line and
      `by <author>.` on the next.
     */
    function VersionInfo(): (s: string)
      reads this
      ensures NoNewline(name) && NoNewline(version) && NoNewline(author) ==>
                Lines(s) == [name + " v." + version, "by " + author + "."]
    {
      var first, second := name + " v." + version, "by " + author + ".";
      LinesOfTwo(first, second);
      assert first + "\n" + second == name + " v." + version + "\nby " + author + ".";
      first + "\n" + second
    }

    /**
      The lines of the declared flags, one per key, in the map's iteration
      order, which is not specified and is returned as `order`.
     */
    method FlagLines() returns (lines: seq<string>, ghost order: seq<string>)
      requires NamedKeys(args)
      ensures IsOrderOf(order, args)
      ensures lines == ArgLines(args, order)
      ensures |lines| == |args|
    {
      lines := [];
      var remaining := args.Keys;
      order := [];
      while remaining != {}
        invariant remaining <= args.Keys
        invariant forall k :: k in order ==> k in args && k !in remaining
        invariant forall k :: k in args ==> k in order || k in remaining
        invariant forall i, j :: 0 <= i < j < |order| ==> order[i] != order[j]
        invariant |order| + |remaining| == |args|
        invariant |lines| == |order|
        invariant forall i :: 0 <= i < |order| ==> lines[i] == ArgLine(order[i], args[order[i]])
        decreases remaining
      {
        var key :| key in remaining;
        lines := lines + [ArgLine(key, args[key])];
        order := order + [key];
        remaining := remaining - {key};
      }
    }

    /**
      The help text: the line of every declared flag, in the map's
      iteration order, then the `help` and `version` lines, joined by
      newlines. It always ends with the `version` line, and it splits into
      one line per declared flag plus those two when no name or help text
      holds a newline.
     */
    method HelpInfo() returns (text: string, ghost order: seq<string>)
      requires NamedKeys(args)
      ensures IsOrderOf(order, args)
      ensures text == Join(HelpLines(args, order), "\n")
      ensures |text| >= |VersionFlagLine| && text[|text| - |VersionFlagLine|..] == VersionFlagLine
      ensures NewlineFree(args) ==> HelpTextLines(text, |args|)
    {
      var lines;
      lines, order := FlagLines();
      lines := lines + [HelpFlagLine, VersionFlagLine];
      text := Join(lines, "\n");
      HelpTextShape(args, order);
    }
  }

  // ---------------------------------------------------------------------
  // Properties of the queries

  /**
    Spelling priority: when the `k`-th spelling (short, long, bare) is the
    first of them to occur in `argv`, and `i` is its first position, the
    data is the token at `i + 1`, or the error naming that spelling when
    `i` is the last position. Later spellings are not looked at, even when
    a value follows them.
   */
  lemma GetArgDataFirstSpelling(app: App, argv: seq<string>, name: string, k: nat, i: nat)
    requires name in app.args && |name| > 0 && app.args[name].data
    requires k < 3 && forall j :: 0 <= j < k ==> Spellings(name)[j] !in argv
    requires i < |argv| && argv[i] == Spellings(name)[k] && argv[i] !in argv[..i]
    ensures app.GetArgData(argv, name) ==
              if i + 1 < |argv| then Ok(argv[i + 1]) else Err(New(NoDataMessage(argv[i])))
  {
    ValueAfterFirstOccurrence(argv, argv[i], i);
    assert argv[i] in argv;
    if k == 1 {
      assert Spellings(name)[0] !in argv;
    } else if k == 2 {
      assert Spellings(name)[0] !in argv && Spellings(name)[1] !in argv;
    }
  }

  /** The defensive "not found in arguments" error is never the outcome of an extraction. */
  lemma GetArgDataNeverNotFound(app: App, argv: seq<string>, name: string, spelling: string)
    requires name in app.args && |name| > 0
    ensures app.GetArgData(argv, name) != Err(New(NotFoundMessage(spelling)))
  {
    var r := app.GetArgData(argv, name);
    if r.Err? {
      var last := argv[|argv| - 1];
      assert NoDataMessage(last)[..4] == "No d";
      assert NotFoundMessage(spelling)[0] == '"';
    }
  }

  /** A short spelling is shared by every name with the same first letter. */
  lemma ShortFormCollision(app: App, argv: seq<string>, name: string)
    requires |name| > 0 && name[0] == 'v' && ShortForm(name) in argv
    ensures app.ArgWasUsed(argv, name) && app.VersionIs(argv)
  {
    assert ShortForm(name) == "-v";
    var i :| 0 <= i < |argv| && argv[i] == ShortForm(name);
    assert IsSpellingOf(argv[i], name);
  }

  /** The program path at the head of the vector is searched like any other token. */
  lemma ProgramPathIsSearched(app: App, argv: seq<string>, name: string)
    requires |argv| > 0 && argv[0] == name && |name| > 0
    ensures app.ArgWasUsed(argv, name)
    ensures name in app.args && app.args[name].data && |argv| == 1 ==>
              app.GetArgData(argv, name) == Err(New(NoDataMessage(name)))
  {
    assert IsSpellingOf(argv[0], name);
    if name in app.args && app.args[name].data && |argv| == 1 {
      assert argv == [name];
      assert argv[..0] == [];
      if ShortForm(name) == name {
        GetArgDataFirstSpelling(app, argv, name, 0, 0);
      } else {
        assert LongForm(name) != name by { assert |LongForm(name)| == |name| + 2; }
        GetArgDataFirstSpelling(app, argv, name, 2, 0);
      }
    }
  }

  /** The spellings of the example application's data flag `cgreet`. */
  lemma CgreetSpellings()
    ensures Spellings("cgreet") == ["-c", "--cgreet", "cgreet"]
  {
    assert ShortForm("cgreet") == "-c";
    assert LongForm("cgreet") == "--cgreet";
  }

  /** `--cgreet World` gives `World`; `--cgreet` as the last token is an error naming `--cgreet`. */
  lemma CgreetLongForm(app: App)
    requires "cgreet" in app.args && app.args["cgreet"].data
    ensures app.GetArgData(["prog", "--cgreet", "World"], "cgreet") == Ok("World")
    ensures app.GetArgData(["prog", "--cgreet"], "cgreet") == Err(New("No data supplied to \"--cgreet\"."))
  {
    CgreetSpellings();
    var a1 := ["prog", "--cgreet", "World"];
    assert a1[..1] == ["prog"];
    GetArgDataFirstSpelling(app, a1, "cgreet", 1, 1);
    var a2 := ["prog", "--cgreet"];
    assert a2[..1] == ["prog"];
    GetArgDataFirstSpelling(app, a2, "cgreet", 1, 1);
  }

  /**
    The short spelling wins over the long one, even when only the long one
    is followed by a value, and even when it is the last token.
   */
  lemma CgreetShortFormWins(app: App)
    requires "cgreet" in app.args && app.args["cgreet"].data
    ensures app.GetArgData(["prog", "-c", "--cgreet", "World"], "cgreet") == Ok("--cgreet")
    ensures app.GetArgData(["prog", "cgreet", "x", "-c"], "cgreet") == Err(New("No data supplied to \"-c\"."))
  {
    CgreetSpellings();
    var a3 := ["prog", "-c", "--cgreet", "World"];
    assert a3[..1] == ["prog"];
    GetArgDataFirstSpelling(app, a3, "cgreet", 0, 1);
    var a4 := ["prog", "cgreet", "x", "-c"];
    assert a4[..3] == ["prog", "cgreet", "x"];
    GetArgDataFirstSpelling(app, a4, "cgreet", 0, 3);
  }

  /** Probes of the example application's flags, and of the built-in ones. */
  lemma ProbeScenarios(app: App)
    ensures app.ArgWasUsed(["prog", "--greet"], "greet")
    ensures app.ArgWasUsed(["prog", "-g"], "greet")
    ensures !app.ArgWasUsed(["prog", "--greeting"], "greet")
    ensures app.HelpIs(["prog", "-h"]) && !app.VersionIs(["prog", "-h"])
    ensures app.VersionIs(["prog", "-v"]) && app.VersionIs(["prog", "version"])
  {
    var g := "greet";
    assert ShortForm(g) == "-g" && LongForm(g) == "--greet";
    assert ShortForm(g) in ["prog", "-g"];
    assert LongForm(g) in ["prog", "--greet"];
    var v := ["prog", "--greeting"];
    assert !IsSpellingOf(v[0], g) && !IsSpellingOf(v[1], g) by {
      assert v[1][..2] == "--" && v[1][2..] == "greeting";
    }
  }

  /** The version text of the example application. */
  lemma VersionInfoExample(app: App)
    requires app.name == "Example" && app.version == "0.1.0" && app.author == "Alyx Shang"
    ensures app.VersionInfo() == "Example v.0.1.0\nby Alyx Shang."
  {
  }

  /** Builds the example application: a plain flag `greet` and a data flag `cgreet`. */
  method ExampleApp() returns (app: App)
    ensures fresh(app)
    ensures app.name == "Example" && app.version == "0.1.0" && app.author == "Alyx Shang"
    ensures app.args == map["greet" := ArgData(" generic greeting for the user", false),
                            "cgreet" := ArgData("custom greeting for the user", true)]
  {
    app := new App("Example", "0.1.0", "Alyx Shang");
    app.AddArg("greet", " generic greeting for the user", false);
    app.AddArg("cgreet", "custom greeting for the user", true);
  }
}
