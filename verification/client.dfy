/** The command-line client: argument parsing, the request each command
    sends, and the two readings of a STATUS reply -- the status report and
    the JSON object. Socket set-up, `recv` and the monitor loop's sleeps are
    not modelled; a reply is the text the server sent. */
module Client {
  import opened Base
  import opened Text
  import opened Server
  import Loop

  datatype Command = Status | Monitor | SetFan | SetAuto | GetTemp | GetFan | Help

  datatype ClientConfig = ClientConfig(
    command: Command,
    fanDuty: int,
    interval: int,
    verbose: bool,
    json: bool)

  /** The zero-initialised static configuration: STATUS, no flags. */
  const InitialConfig: ClientConfig := ClientConfig(Status, 0, 0, false, false)

  /** What the option scan leaves: the flags seen, whether `-h` ended the
      scan, and the non-option words in their original order. */
  datatype Options = Options(verbose: bool, json: bool, help: bool, words: seq<string>)

  const NoOptions: Options := Options(false, false, false, [])

  /** Flags, once set, stay set. */
  predicate Keeps(o: Options, o': Options) {
    (o.verbose ==> o'.verbose) && (o.json ==> o'.json) && (o.help ==> o'.help)
  }

  /** One option letter: `v` and `j` set their flags, `h` requests help;
      any other letter is an error. */
  function ApplyFlag(o: Options, c: char): (r: Option<Options>)
    ensures r.Some? <==> c in "vjh"
    ensures r.Some? ==> r.value.words == o.words && Keeps(o, r.value)
    ensures c == 'v' ==> r.Some? && r.value.verbose && r.value.json == o.json && r.value.help == o.help
    ensures c == 'j' ==> r.Some? && r.value.json && r.value.verbose == o.verbose && r.value.help == o.help
    ensures c == 'h' ==> r.Some? && r.value.help && r.value.verbose == o.verbose && r.value.json == o.json
  {
    if c == 'v' then Some(o.(verbose := true))
    else if c == 'j' then Some(o.(json := true))
    else if c == 'h' then Some(o.(help := true))
    else None
  }

  /** The long options `--verbose`, `--json` and `--help`; their first
      letters differ, so any non-empty prefix of a name selects it. */
  function LongOption(name: string): (r: Option<char>)
    ensures r.Some? ==> r.value in "vjh"
    ensures name == [] ==> r.None?
  {
    if name != [] && StartsWith("verbose", name) then Some('v')
    else if name != [] && StartsWith("json", name) then Some('j')
    else if name != [] && StartsWith("help", name) then Some('h')
    else None
  }

  /** Each full long name, and its one-letter abbreviation, selects its
      option. */
  lemma LongOptionNames()
    ensures LongOption("verbose") == Some('v') && LongOption("v") == Some('v')
    ensures LongOption("json") == Some('j') && LongOption("j") == Some('j')
    ensures LongOption("help") == Some('h') && LongOption("h") == Some('h')
  {
    assert StartsWith("verbose", "verbose") && StartsWith("verbose", "v");
    NotPrefix("verbose", "json", 0);
    NotPrefix("verbose", "j", 0);
    assert StartsWith("json", "json") && StartsWith("json", "j");
    NotPrefix("verbose", "help", 0);
    NotPrefix("verbose", "h", 0);
    NotPrefix("json", "help", 0);
    NotPrefix("json", "h", 0);
    assert StartsWith("help", "help") && StartsWith("help", "h");
  }

  /** A cluster of short options such as `-vj`, left to right; `h` ends the
      scan at once. */
  function Cluster(o: Options, cs: string): (r: Option<Options>)
    ensures r.Some? ==> r.value.words == o.words && Keeps(o, r.value)
    ensures !o.help && 'h' !in cs ==>
      (r.Some? <==> forall i :: 0 <= i < |cs| ==> cs[i] in "vj")
    ensures !o.help && 'h' !in cs && r.Some? ==>
      r.value == o.(verbose := o.verbose || 'v' in cs, json := o.json || 'j' in cs)
    ensures !o.help && (forall i :: 0 <= i < |cs| ==> cs[i] in "vjh") ==>
      r.Some? && (r.value.help <==> 'h' in cs)
    decreases |cs|
  {
    if cs == [] || o.help then Some(o)
    else
      match ApplyFlag(o, cs[0])
      case None => None
      case Some(o') => Cluster(o', cs[1..])
  }

  /** The `getopt_long` loop over the arguments after the program name,
      with GNU argument permutation: words that are not options are kept in
      order for the command parser; `--` ends the options. None is the
      failure exit on an unknown option. */
  function ScanOptions(args: seq<string>, o: Options): (r: Option<Options>)
    ensures o.help ==> r == Some(o)
    ensures r.Some? ==> Keeps(o, r.value)
    ensures r.Some? ==>
      (|o.words| <= |r.value.words| <= |o.words| + |args| && r.value.words[..|o.words|] == o.words)
    decreases |args|
  {
    if args == [] || o.help then Some(o)
    else
      var a := args[0];
      if a == "--" then Some(o.(words := o.words + args[1..]))
      else if |a| > 2 && a[..2] == "--" then
        match LongOption(a[2..])
        case None => None
        case Some(c) => ScanOptions(args[1..], ApplyFlag(o, c).value)
      else if |a| > 1 && a[0] == '-' then
        match Cluster(o, a[1..])
        case None => None
        case Some(o') => ScanOptions(args[1..], o')
      else
        ScanOptions(args[1..], o.(words := o.words + [a]))
  }

  /** An argument `getopt` treats as an option (or option cluster). */
  predicate IsOptionWord(a: string) {
    |a| > 1 && a[0] == '-'
  }

  /** Without option words the scan keeps every argument, in order. */
  lemma PlainWordsKept(args: seq<string>, o: Options)
    requires !o.help && forall i :: 0 <= i < |args| ==> !IsOptionWord(args[i])
    ensures ScanOptions(args, o) == Some(o.(words := o.words + args))
  {
    PlainWordsSkipped(args, [], o);
    assert args + [] == args;
  }

  /** Plain words before anything else are collected and the scan carries
      on after them. */
  lemma {:induction false} PlainWordsSkipped(ws: seq<string>, rest: seq<string>, o: Options)
    requires !o.help && forall i :: 0 <= i < |ws| ==> !IsOptionWord(ws[i])
    ensures ScanOptions(ws + rest, o) == ScanOptions(rest, o.(words := o.words + ws))
    decreases |ws|
  {
    if ws == [] {
      assert ws + rest == rest && o.words + ws == o.words;
    } else {
      var a := ws[0];
      assert !IsOptionWord(a);
      assert a != "--" by { assert IsOptionWord("--"); }
      assert !(|a| > 2 && a[..2] == "--");
      var o' := o.(words := o.words + [a]);
      assert (ws + rest)[0] == a && (ws + rest)[1..] == ws[1..] + rest;
      assert ScanOptions(ws + rest, o) == ScanOptions(ws[1..] + rest, o');
      assert forall i :: 0 <= i < |ws[1..]| ==> !IsOptionWord(ws[1..][i]) by {
        forall i | 0 <= i < |ws[1..]| ensures !IsOptionWord(ws[1..][i]) {
          assert ws[1..][i] == ws[i + 1];
        }
      }
      PlainWordsSkipped(ws[1..], rest, o');
      assert (o.words + [a]) + ws[1..] == o.words + ws;
    }
  }

  /** An option between plain words sets its flag wherever it stands, and
      the words on both sides are kept in order: `status -j` is
      `-j status`. */
  lemma FlagAmongWords(ws1: seq<string>, c: char, ws2: seq<string>, o: Options)
    requires !o.help && c in "vj"
    requires forall i :: 0 <= i < |ws1| ==> !IsOptionWord(ws1[i])
    requires forall i :: 0 <= i < |ws2| ==> !IsOptionWord(ws2[i])
    ensures ScanOptions(ws1 + [['-', c]] + ws2, o)
      == Some(ApplyFlag(o, c).value.(words := o.words + ws1 + ws2))
  {
    var f: string := ['-', c];
    var o1 := o.(words := o.words + ws1);
    var o2 := ApplyFlag(o1, c).value;
    assert o2.words == o.words + ws1;
    assert o2.(words := o2.words + ws2) == ApplyFlag(o, c).value.(words := o.words + ws1 + ws2);
    calc {
      ScanOptions(ws1 + [f] + ws2, o);
      { ConcatAssoc(ws1, [f], ws2); }
      ScanOptions(ws1 + ([f] + ws2), o);
      { PlainWordsSkipped(ws1, [f] + ws2, o); }
      ScanOptions([f] + ws2, o1);
      { ShortFlag(c, ws2, o1); }
      ScanOptions(ws2, o2);
      { PlainWordsKept(ws2, o2); }
      Some(o2.(words := o2.words + ws2));
    }
  }

  lemma ConcatAssoc<T>(a: seq<T>, b: seq<T>, c: seq<T>)
    ensures a + b + c == a + (b + c)
  {
  }

  /** A lone short option sets its flag and the scan goes on. */
  lemma ShortFlag(c: char, rest: seq<string>, o: Options)
    requires !o.help && c in "vj"
    ensures ScanOptions([['-', c]] + rest, o) == ScanOptions(rest, ApplyFlag(o, c).value)
  {
    var f: string := ['-', c];
    assert ([f] + rest)[0] == f && ([f] + rest)[1..] == rest;
    assert f != "--" && f[1..] == [c];
    assert [c][1..] == [];
  }

  /** `--` ends the options: everything after it is a word, even text that
      looks like an option. */
  lemma WordsAfterDoubleDash(ws: seq<string>, rest: seq<string>, o: Options)
    requires !o.help && forall i :: 0 <= i < |ws| ==> !IsOptionWord(ws[i])
    ensures ScanOptions(ws + ["--"] + rest, o) == Some(o.(words := o.words + ws + rest))
  {
    ConcatAssoc(ws, ["--"], rest);
    PlainWordsSkipped(ws, ["--"] + rest, o);
    assert (["--"] + rest)[0] == "--" && (["--"] + rest)[1..] == rest;
    assert o.words + ws + rest == (o.words + ws) + rest;
  }

  /** `parse_arguments`: None stands for the failure exit. */
  function ParseArguments(args: seq<string>): (r: Option<ClientConfig>)
    ensures r.Some? && r.value.command == SetFan ==> 1 <= r.value.fanDuty <= 100
    ensures r.Some? && r.value.command == Monitor ==> r.value.interval >= 1
  {
    match ScanOptions(args, NoOptions)
    case None => None
    case Some(o) =>
      var c := InitialConfig.(verbose := o.verbose, json := o.json);
      if o.help then Some(c.(command := Help))
      else if o.words == [] then Some(c)
      else
        var w := o.words[0];
        var arg := if |o.words| > 1 then Some(o.words[1]) else None;
        if w == "status" then Some(c)
        else if w == "monitor" then
          Some(c.(command := Monitor, interval := if arg.None? then 2 else Max(Atoi(arg.value), 1)))
        else if w == "set-fan" then
          if arg.None? then None
          else
            var d := Atoi(arg.value);
            if 1 <= d <= 100 then Some(c.(command := SetFan, fanDuty := d)) else None
        else if w == "set-auto" then Some(c.(command := SetAuto))
        else if w == "get-temp" then Some(c.(command := GetTemp))
        else if w == "get-fan" then Some(c.(command := GetFan))
        else if w == "help" then Some(c.(command := Help))
        else None
  }

  /** The command words, with no options around them: each known word
      selects its command, `set-fan` needs a value, and any other word is a
      failure exit. */
  lemma CommandWords(w: string)
    requires !IsOptionWord(w)
    ensures w == "status" ==> ParseArguments([w]) == Some(InitialConfig)
    ensures w == "monitor" ==> ParseArguments([w]) == Some(InitialConfig.(command := Monitor, interval := 2))
    ensures w == "set-fan" ==> ParseArguments([w]).None?
    ensures w == "set-auto" ==> ParseArguments([w]) == Some(InitialConfig.(command := SetAuto))
    ensures w == "get-temp" ==> ParseArguments([w]) == Some(InitialConfig.(command := GetTemp))
    ensures w == "get-fan" ==> ParseArguments([w]) == Some(InitialConfig.(command := GetFan))
    ensures w == "help" ==> ParseArguments([w]) == Some(InitialConfig.(command := Help))
    ensures w !in CommandNames ==> ParseArguments([w]).None?
  {
    PlainWordsKept([w], NoOptions);
    assert NoOptions.words + [w] == [w];
  }

  /** The words `parse_arguments` recognises. */
  const CommandNames: set<string> :=
    {"status", "monitor", "set-fan", "set-auto", "get-temp", "get-fan", "help"}

  /** `monitor N` polls every `atoi(N)` seconds, but never less than one. */
  lemma MonitorInterval(x: string)
    requires !IsOptionWord(x)
    ensures ParseArguments(["monitor", x]) == Some(InitialConfig.(command := Monitor, interval := Max(Atoi(x), 1)))
  {
    PlainWordsKept(["monitor", x], NoOptions);
    assert NoOptions.words + ["monitor", x] == ["monitor", x];
  }

  /** `set-fan N` is accepted exactly when `atoi(N)` is a duty in 1..100. */
  lemma SetFanArgument(x: string)
    requires !IsOptionWord(x)
    ensures ParseArguments(["set-fan", x]).Some? <==> 1 <= Atoi(x) <= 100
    ensures ParseArguments(["set-fan", x]).Some? ==>
      ParseArguments(["set-fan", x]) == Some(InitialConfig.(command := SetFan, fanDuty := Atoi(x)))
  {
    var ws := ["set-fan", x];
    PlainWordsKept(ws, NoOptions);
    assert NoOptions.words + ws == ws;
    assert ScanOptions(ws, NoOptions) == Some(NoOptions.(words := ws));
    assert "set-fan" != "status" && "set-fan" != "monitor";
  }

  /** The request a command sends; help connects to nothing, and the
      monitor sends STATUS once per interval. */
  function Request(cfg: ClientConfig): (r: Option<string>)
    ensures r.None? <==> cfg.command == Help
  {
    match cfg.command
    case Status => Some("STATUS")
    case Monitor => Some("STATUS")
    case SetFan => Some(SetFanRequest(cfg.fanDuty))
    case SetAuto => Some("SET_AUTO")
    case GetTemp => Some("GET_TEMP")
    case GetFan => Some("GET_FAN")
    case Help => None
  }

  /** The server branch each command is meant for. */
  function Intended(c: Command): Kind {
    match c
    case Status => StatusReq
    case Monitor => StatusReq
    case SetFan => SetFanReq
    case SetAuto => SetAutoReq
    case GetTemp => GetTempReq
    case GetFan => GetFanReq
    case Help => UnknownReq
  }

  /** Every request the client sends takes the server branch meant for
      it, and a parsed `set-fan` is always accepted: the server switches to
      manual mode with exactly that duty. */
  lemma RequestsReachTheirBranch(args: seq<string>, s: Loop.Shared)
    requires ParseArguments(args).Some? && ParseArguments(args).value.command != Help
    ensures var cfg := ParseArguments(args).value;
      && Classify(Request(cfg).value) == Intended(cfg.command)
      && (cfg.command == SetFan ==>
            HandleCommand(Request(cfg).value, s)
              == Reply(FanSet(cfg.fanDuty), s.(autoDuty := 0, manualNext := cfg.fanDuty)))
  {
    ExactRequests();
    var cfg := ParseArguments(args).value;
    SetFanRequestParses(cfg.fanDuty);
    if cfg.command == SetFan {
      SetFanOutcome(cfg.fanDuty, s);
    }
  }

  /** Every request the client sends fits the server's `recv` buffer and
      holds no NUL, so the server handles it whole: serving it is handling
      the request text in the branch meant for its command. */
  lemma RequestsServedWhole(args: seq<string>, s: Loop.Shared)
    requires ParseArguments(args).Some? && ParseArguments(args).value.command != Help
    ensures var cfg := ParseArguments(args).value;
      var req := Request(cfg).value;
      && |req| < BufferSize
      && Serve(req, s) == Some(HandleCommand(req, s))
      && Classify(CString(req)) == Intended(cfg.command)
  {
    var cfg := ParseArguments(args).value;
    var req := Request(cfg).value;
    if cfg.command == SetFan {
      SetFanRequestPlain(cfg.fanDuty);
    }
    CStringWhole(req);
    RequestsReachTheirBranch(args, s);
  }

  /** A STATUS reply's five fields. */
  datatype StatusReport = StatusReport(cpu: int, gpu: int, duty: int, rpm: int, auto: int)

  /** The `sscanf` both readers of a STATUS reply use: all five fields or
      nothing. */
  function ParseStatus(resp: string): (r: Option<StatusReport>)
    ensures r.Some? ==> (Scan(StatusFormat, resp)
      == [r.value.cpu, r.value.gpu, r.value.duty, r.value.rpm, r.value.auto])
  {
    AllFive(Scan(StatusFormat, resp))
  }

  /** The record of five scanned values, if there are five. */
  function AllFive(vs: seq<int>): (r: Option<StatusReport>)
    ensures r.Some? <==> |vs| == 5
    ensures r.Some? ==> vs == [r.value.cpu, r.value.gpu, r.value.duty, r.value.rpm, r.value.auto]
  {
    if |vs| == 5 then Some(StatusReport(vs[0], vs[1], vs[2], vs[3], vs[4])) else None
  }

  /** Any STATUS reply of the server parses back to the record's fields. */
  lemma StatusParsesBack(s: Loop.Shared)
    requires StatusFieldsAreInts(s)
    ensures ParseStatus(HandleCommand("STATUS", s).text)
      == Some(StatusReport(s.cpuTemp, s.gpuTemp, s.fanDuty, s.fanRpms, s.autoDuty))
  {
    ExactRequests();
    StatusRoundTrip("STATUS", s);
  }

  /** The JSON object `format_json_status` prints; it ends in `true`
      exactly when the AUTO field is non-zero. */
  function Json(f: StatusReport): (j: string)
    ensures EndsWith(j, "true" + "\n}") <==> f.auto != 0
    ensures StartsWith(j, "{\n")
  {
    var head := "{\n  \"cpu_temperature\": " + Itoa(f.cpu)
      + ",\n  \"gpu_temperature\": " + Itoa(f.gpu)
      + ",\n  \"fan_duty_cycle\": " + Itoa(f.duty)
      + ",\n  \"fan_rpm\": " + Itoa(f.rpm)
      + ",\n  \"auto_mode\": ";
    EndsWithChoice(head, "true", "false", "\n}", f.auto != 0);
    PrefixKept("{\n", head, (if f.auto != 0 then "true" else "false") + "\n}");
    head + (if f.auto != 0 then "true" else "false") + "\n}"
  }

  /** `format_json_status`: None stands for its -1 result, returned unless
      all five fields parse; the object is `snprintf`ed into 1024 bytes. */
  function JsonStatus(resp: string): (r: Option<string>)
    ensures r.None? <==> ParseStatus(resp).None?
    ensures r.Some? ==> |r.value| < BufferSize
  {
    match ParseStatus(resp)
    case None => None
    case Some(f) => Some(Fit(Json(f)))
  }

  lemma PrefixKept(p: string, s: string, t: string)
    requires StartsWith(s, p)
    ensures StartsWith(s + t, p)
  {
    assert (s + t)[..|p|] == s[..|p|];
  }

  predicate EndsWith(s: string, suffix: string) {
    |suffix| <= |s| && s[|s| - |suffix|..] == suffix
  }

  /** A text that ends in `yes` or `no`, then a fixed tail, can be told
      apart by its end whenever `no` does not end in `yes`. */
  lemma EndsWithChoice(head: string, yes: string, no: string, tail: string, b: bool)
    requires |yes| <= |no| && no[|no| - |yes|..] != yes
    ensures EndsWith(head + (if b then yes else no) + tail, yes + tail) <==> b
  {
    var choice := if b then yes else no;
    var j := head + choice + tail;
    var k := |j| - |yes| - |tail|;
    assert j[k..] == choice[|choice| - |yes|..] + tail;
    if !b {
      assert j[k..][..|yes|] == no[|no| - |yes|..];
    }
  }

  /** With C `int` fields the object fits its buffer, so the JSON of a
      STATUS reply is the record's, untruncated. */
  lemma JsonOfStatus(s: Loop.Shared)
    requires StatusFieldsAreInts(s)
    ensures JsonStatus(HandleCommand("STATUS", s).text)
      == Some(Json(StatusReport(s.cpuTemp, s.gpuTemp, s.fanDuty, s.fanRpms, s.autoDuty)))
  {
    var f := StatusReport(s.cpuTemp, s.gpuTemp, s.fanDuty, s.fanRpms, s.autoDuty);
    StatusParsesBack(s);
    JsonFits(f);
  }

  /** The object of four C `int`s and a boolean is well under 1024 bytes. */
  lemma JsonFits(f: StatusReport)
    requires IsInt32(f.cpu) && IsInt32(f.gpu) && IsInt32(f.duty) && IsInt32(f.rpm)
    ensures |Json(f)| < BufferSize
  {
    ItoaLength(f.cpu);
    ItoaLength(f.gpu);
    ItoaLength(f.duty);
    ItoaLength(f.rpm);
  }

  /** `print_status`: the report when all five fields parse, otherwise the
      raw reply. */
  function PrintStatus(resp: string): (out: string)
    ensures ParseStatus(resp).None? ==> out == "Status: " + resp + "\n"
  {
    match ParseStatus(resp)
    case None => "Status: " + resp + "\n"
    case Some(f) => Report(f)
  }

  /** The report `print_status` prints; its last line before the rule
      says ON exactly when the AUTO field is non-zero. */
  function Report(f: StatusReport): (out: string)
    ensures EndsWith(out, "ON" + ReportEnd) <==> f.auto != 0
  {
    EndsWithChoice(ReportLines(f), "ON", "OFF", ReportEnd, f.auto != 0);
    ReportLines(f) + (if f.auto != 0 then "ON" else "OFF") + ReportEnd
  }

  /** The report up to the auto-mode value. */
  function ReportLines(f: StatusReport): string {
    "\n=== Clevo Fan Control Status ===\n"
    + "CPU Temperature: " + Itoa(f.cpu) + Degree + "C\n"
    + "GPU Temperature: " + Itoa(f.gpu) + Degree + "C\n"
    + "Fan Duty Cycle:  " + Itoa(f.duty) + "%\n"
    + "Fan RPM:         " + Itoa(f.rpm) + "\n"
    + "Auto Mode:       "
  }

  const ReportEnd: string := "\n===============================\n\n"

  /** Every server STATUS reply is shown as the report of the record,
      never as the raw fallback. */
  lemma StatusShownAsReport(s: Loop.Shared)
    requires StatusFieldsAreInts(s)
    ensures PrintStatus(HandleCommand("STATUS", s).text)
      == Report(StatusReport(s.cpuTemp, s.gpuTemp, s.fanDuty, s.fanRpms, s.autoDuty))
  {
    StatusParsesBack(s);
  }

  /** With no command word the client asks for STATUS; flags do not change
      that. */
  lemma DefaultIsStatus()
    ensures ParseArguments([]) == Some(InitialConfig)
    ensures ParseArguments(["-v"]) == Some(InitialConfig.(verbose := true))
    ensures ParseArguments(["--json"]) == Some(InitialConfig.(json := true))
  {
    LongOptionNames();
    assert ["-v"][1..] == [];
    assert "-v"[1..] == "v" && "v"[1..] == [];
    assert ["--json"][1..] == [];
    assert "--json"[2..] == "json";
    assert "--json"[..2] == "--";
  }
}
