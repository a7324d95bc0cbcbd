/** `handle_client_command` of the daemon's socket server: one request, a
    C string of at most 1023 bytes, against the shared record, giving the
    reply text and the updated record. The checks run in a fixed order:
    the prefix "STATUS", the prefix "SET_FAN", exactly "SET_AUTO", the
    14-character prefix "SET_TARGET_TEM", exactly "GET_TEMP", exactly
    "GET_FAN"; anything else is an unknown command. */
module Server {
  import opened Base
  import opened Text
  import opened Loop

  datatype Reply = Reply(text: string, shared: Shared)

  /** `CPU:%d GPU:%d FAN_DUTY:%d FAN_RPM:%d AUTO:%d`, the STATUS reply; the
      client scans its replies with the same format. */
  const StatusLabels: seq<string> := ["CPU:", "GPU:", "FAN_DUTY:", "FAN_RPM:", "AUTO:"]
  const StatusFormat: seq<Directive> := Fields(StatusLabels)

  /** `CPU:%d GPU:%d`, the GET_TEMP reply. */
  const TempLabels: seq<string> := ["CPU:", "GPU:"]
  const TempFormat: seq<Directive> := Fields(TempLabels)

  /** `DUTY:%d RPM:%d AUTO:%d`, the GET_FAN reply. */
  const FanLabels: seq<string> := ["DUTY:", "RPM:", "AUTO:"]
  const FanFormat: seq<Directive> := Fields(FanLabels)

  /** `SET_FAN %d`, scanned from a SET_FAN request. */
  const SetFanFormat: seq<Directive> := [Lit("SET_FAN"), Space, Int]

  /** `SET_TARGET_TEMP %d`, scanned from a target request. */
  const TargetFormat: seq<Directive> := [Lit("SET_TARGET_TEMP"), Space, Int]

  const InvalidDuty: string := "ERROR: Invalid duty cycle (must be 1-100)"
  const InvalidSetFan: string := "ERROR: Invalid SET_FAN command"
  const AutoEnabled: string := "OK: Auto mode enabled"
  const InvalidTarget: string := "ERROR: Invalid target temperature (must be 40-100" + Degree + "C)"
  const InvalidSetTarget: string := "ERROR: Invalid SET_TARGET_TEMP command"

  function FanSet(duty: int): string {
    "OK: Fan set to " + Itoa(duty) + "%"
  }

  function TargetSet(temp: int): string {
    "OK: Target temperature set to " + Itoa(temp) + Degree + "C"
  }

  function Unknown(cmd: string): string {
    "ERROR: Unknown command '" + cmd + "'"
  }

  function StatusValues(s: Shared): (vs: seq<int>)
    ensures |vs| == |StatusLabels|
  {
    [s.cpuTemp, s.gpuTemp, s.fanDuty, s.fanRpms, s.autoDuty]
  }

  /** The branch a request takes. */
  datatype Kind = StatusReq | SetFanReq | SetAutoReq | SetTargetReq | GetTempReq | GetFanReq | UnknownReq

  /** The checks of `handle_client_command`, in the order they run. No
      request passes two of the tests, so each branch is reached exactly by
      the requests its own test accepts. */
  function Classify(cmd: string): (k: Kind)
    ensures k == StatusReq <==> StartsWith(cmd, "STATUS")
    ensures k == SetFanReq <==> StartsWith(cmd, "SET_FAN")
    ensures k == SetAutoReq <==> cmd == "SET_AUTO"
    ensures k == SetTargetReq <==> StartsWith(cmd, "SET_TARGET_TEM")
    ensures k == GetTempReq <==> cmd == "GET_TEMP"
    ensures k == GetFanReq <==> cmd == "GET_FAN"
  {
    TestsDisjoint(cmd);
    if StartsWith(cmd, "STATUS") then StatusReq
    else if StartsWith(cmd, "SET_FAN") then SetFanReq
    else if cmd == "SET_AUTO" then SetAutoReq
    else if StartsWith(cmd, "SET_TARGET_TEM") then SetTargetReq
    else if cmd == "GET_TEMP" then GetTempReq
    else if cmd == "GET_FAN" then GetFanReq
    else UnknownReq
  }

  /** No request passes two of the tests of `handle_client_command`: they
      differ at the first, second or fifth character. */
  lemma TestsDisjoint(cmd: string)
    ensures StartsWith(cmd, "STATUS") ==>
      && !StartsWith(cmd, "SET_FAN") && cmd != "SET_AUTO" && !StartsWith(cmd, "SET_TARGET_TEM")
      && cmd != "GET_TEMP" && cmd != "GET_FAN"
    ensures StartsWith(cmd, "SET_FAN") ==>
      && cmd != "SET_AUTO" && !StartsWith(cmd, "SET_TARGET_TEM") && cmd != "GET_TEMP" && cmd != "GET_FAN"
    ensures StartsWith(cmd, "SET_TARGET_TEM") ==> cmd != "SET_AUTO" && cmd != "GET_TEMP" && cmd != "GET_FAN"
  {
    if StartsWith(cmd, "STATUS") {
      assert cmd[0] == 'S' && cmd[1] == 'T';
      NotPrefix(cmd, "SET_FAN", 1);
      NotPrefix(cmd, "SET_TARGET_TEM", 1);
    }
    if StartsWith(cmd, "SET_FAN") {
      assert cmd[0] == 'S' && cmd[4] == 'F';
      NotPrefix(cmd, "SET_TARGET_TEM", 4);
    }
    if StartsWith(cmd, "SET_TARGET_TEM") {
      assert cmd[0] == 'S' && cmd[4] == 'T';
    }
  }

  /** `handle_client_command`; every reply goes through `snprintf` into a
      1024-byte buffer. Only SET_FAN and SET_AUTO change the record. */
  function HandleCommand(cmd: string, s: Shared): (r: Reply)
    ensures |r.text| < BufferSize
    ensures Classify(cmd) != SetFanReq && Classify(cmd) != SetAutoReq ==> r.shared == s
    ensures Classify(cmd) == SetFanReq ==> (
      var vs := Scan(SetFanFormat, cmd);
      && (|vs| == 1 && 1 <= vs[0] <= 100 ==>
            r == Reply(Fit(FanSet(vs[0])), s.(autoDuty := 0, manualNext := vs[0])))
      && (|vs| == 1 && !(1 <= vs[0] <= 100) ==> r == Reply(InvalidDuty, s))
      && (|vs| != 1 ==> r == Reply(InvalidSetFan, s)))
    ensures Classify(cmd) == SetAutoReq ==> r == Reply(AutoEnabled, s.(autoDuty := 1, manualNext := 0))
    ensures Classify(cmd) == UnknownReq ==> r.text == Fit(Unknown(cmd))
  {
    match Classify(cmd)
    case StatusReq => Reply(Fit(Render(StatusFormat, StatusValues(s))), s)
    case SetFanReq =>
      var vs := Scan(SetFanFormat, cmd);
      if |vs| == 1 then
        if 1 <= vs[0] <= 100 then Reply(Fit(FanSet(vs[0])), s.(autoDuty := 0, manualNext := vs[0]))
        else Reply(InvalidDuty, s)
      else Reply(InvalidSetFan, s)
    case SetAutoReq => Reply(AutoEnabled, s.(autoDuty := 1, manualNext := 0))
    case SetTargetReq =>
      var vs := Scan(TargetFormat, cmd);
      if |vs| == 1 then
        if 40 <= vs[0] <= 100 then Reply(Fit(TargetSet(vs[0])), s)
        else Reply(InvalidTarget, s)
      else Reply(InvalidSetTarget, s)
    case GetTempReq => Reply(Fit(Render(TempFormat, [s.cpuTemp, s.gpuTemp])), s)
    case GetFanReq => Reply(Fit(Render(FanFormat, [s.fanDuty, s.fanRpms, s.autoDuty])), s)
    case UnknownReq => Reply(Fit(Unknown(cmd)), s)
  }

  /** One accepted connection: `recv` of at most 1023 bytes; a zero-length
      receive gets no reply, anything else is handled up to its first NUL. */
  function Serve(chunk: string, s: Shared): (r: Option<Reply>)
    requires |chunk| < BufferSize
    ensures r.None? <==> chunk == []
    ensures r.Some? ==> r.value == HandleCommand(CString(chunk), s)
  {
    if chunk == [] then None else Some(HandleCommand(CString(chunk), s))
  }

  predicate StatusFieldsAreInts(s: Shared) {
    IsInt32(s.cpuTemp) && IsInt32(s.gpuTemp) && IsInt32(s.fanDuty) && IsInt32(s.fanRpms)
    && IsInt32(s.autoDuty)
  }

  /** The requests the client sends, and their newline-terminated forms,
      take the branches their names suggest -- only the exact forms reach
      SET_AUTO, GET_TEMP and GET_FAN. */
  lemma ExactRequests()
    ensures Classify("STATUS") == StatusReq
    ensures Classify("SET_AUTO") == SetAutoReq
    ensures Classify("GET_TEMP") == GetTempReq
    ensures Classify("GET_FAN") == GetFanReq
    ensures Classify("SET_AUTO\n") == UnknownReq
    ensures Classify("GET_TEMP\n") == UnknownReq
    ensures Classify("GET_FAN\n") == UnknownReq
  {
    assert StartsWith("STATUS", "STATUS");
    NotPrefix("SET_AUTO", "STATUS", 1);
    NotPrefix("SET_AUTO", "SET_FAN", 4);
    NotPrefix("SET_AUTO\n", "STATUS", 1);
    NotPrefix("SET_AUTO\n", "SET_FAN", 4);
    NotPrefix("SET_AUTO\n", "SET_TARGET_TEM", 4);
    NotPrefix("GET_TEMP", "STATUS", 0);
    NotPrefix("GET_TEMP", "SET_FAN", 0);
    NotPrefix("GET_TEMP", "SET_TARGET_TEM", 0);
    NotPrefix("GET_TEMP\n", "STATUS", 0);
    NotPrefix("GET_TEMP\n", "SET_FAN", 0);
    NotPrefix("GET_TEMP\n", "SET_TARGET_TEM", 0);
    NotPrefix("GET_FAN", "STATUS", 0);
    NotPrefix("GET_FAN", "SET_FAN", 0);
    NotPrefix("GET_FAN", "SET_TARGET_TEM", 0);
    NotPrefix("GET_FAN\n", "STATUS", 0);
    NotPrefix("GET_FAN\n", "SET_FAN", 0);
    NotPrefix("GET_FAN\n", "SET_TARGET_TEM", 0);
  }

  /** The check order at work: "STATUSX" is a status request and
      "SET_FANX" a SET_FAN request. */
  lemma PrefixRequests()
    ensures Classify("STATUSX") == StatusReq
    ensures Classify("SET_FANX") == SetFanReq
    ensures Classify("SET_TARGET_TEMX") == SetTargetReq
  {
    assert StartsWith("STATUSX", "STATUS");
    NotPrefix("SET_FANX", "STATUS", 1);
    assert StartsWith("SET_FANX", "SET_FAN");
    NotPrefix("SET_TARGET_TEMX", "STATUS", 1);
    NotPrefix("SET_TARGET_TEMX", "SET_FAN", 4);
    assert StartsWith("SET_TARGET_TEMX", "SET_TARGET_TEM");
  }

  /** Anything after the SET_FAN keyword is left to the SET_FAN branch. */
  lemma SetFanPrefixed(rest: string)
    ensures Classify("SET_FAN" + rest) == SetFanReq
  {
    var cmd := "SET_FAN" + rest;
    assert cmd[1] == 'E';
    NotPrefix(cmd, "STATUS", 1);
    assert cmd[..7] == "SET_FAN";
  }

  /** Anything after `SET_TARGET_TEM` is left to the target branch. */
  lemma SetTargetPrefixed(rest: string)
    ensures Classify("SET_TARGET_TEM" + rest) == SetTargetReq
  {
    var cmd := "SET_TARGET_TEM" + rest;
    assert cmd[1] == 'E' && cmd[4] == 'T';
    NotPrefix(cmd, "STATUS", 1);
    NotPrefix(cmd, "SET_FAN", 4);
    assert cmd != "SET_AUTO" by { assert "SET_AUTO"[4] == 'A'; }
    assert cmd[..14] == "SET_TARGET_TEM";
  }

  /** A reply built from labelled C `int`s is untruncated and scans back
      to its values. */
  lemma FieldsRoundTrip(labels: seq<string>, vs: seq<int>)
    requires |vs| == |labels| <= 5
    requires forall i :: 0 <= i < |labels| ==> GoodLabel(labels[i]) && |labels[i]| <= 20 && IsInt32(vs[i])
    ensures Fit(Render(Fields(labels), vs)) == Render(Fields(labels), vs)
    ensures Scan(Fields(labels), Render(Fields(labels), vs)) == vs
  {
    FieldsLength(labels, vs);
    FieldsSeparated(labels);
    ScanRender(Fields(labels), vs);
  }

  /** A STATUS request leaves the record alone, and scanning its reply with
      the reply's own format recovers all five fields. */
  lemma StatusRoundTrip(cmd: string, s: Shared)
    requires Classify(cmd) == StatusReq && StatusFieldsAreInts(s)
    ensures HandleCommand(cmd, s).shared == s
    ensures Scan(StatusFormat, HandleCommand(cmd, s).text) == StatusValues(s)
  {
    var vs := StatusValues(s);
    StatusLabelsGood();
    assert forall i :: 0 <= i < 5 ==> IsInt32(vs[i]);
    FieldsRoundTrip(StatusLabels, vs);
    assert HandleCommand(cmd, s).text == Fit(Render(StatusFormat, vs));
  }

  lemma StatusLabelsGood()
    ensures forall i :: 0 <= i < |StatusLabels| ==> GoodLabel(StatusLabels[i]) && |StatusLabels[i]| <= 20
  {
    forall i | 0 <= i < |StatusLabels|
      ensures GoodLabel(StatusLabels[i]) && |StatusLabels[i]| <= 20
    {
      assert StatusLabels[i][0] in "CGFA";
    }
  }

  /** `SET_FAN n` as the client prints it. */
  function SetFanRequest(n: int): string {
    "SET_FAN" + " " + Itoa(n)
  }

  /** A SET_FAN request of a C `int` is short and holds no NUL. */
  lemma SetFanRequestPlain(n: int)
    requires IsInt32(n)
    ensures |SetFanRequest(n)| < BufferSize && '\0' !in SetFanRequest(n)
  {
    var d := Itoa(n);
    var req := SetFanRequest(n);
    ItoaLength(n);
    assert req == "SET_FAN " + d;
    forall i | 0 <= i < |req| ensures req[i] != '\0' {
      if i >= 8 {
        assert req[i] == d[i - 8];
        assert i - 8 == 0 || IsDigit(d[i - 8]);
      }
    }
  }

  /** The client's SET_FAN request reaches the SET_FAN branch and scans
      back to its number. */
  lemma SetFanRequestParses(n: int)
    ensures Classify(SetFanRequest(n)) == SetFanReq
    ensures Scan(SetFanFormat, SetFanRequest(n)) == [n]
  {
    ScanKeywordInt("SET_FAN", " ", n);
    SetFanPrefixed(" " + Itoa(n));
    assert "SET_FAN" + (" " + Itoa(n)) == SetFanRequest(n);
  }

  /** A well-formed in-range SET_FAN switches to manual mode with that duty
      and acknowledges it; an out-of-range one is rejected with the record
      unchanged. */
  lemma SetFanOutcome(n: int, s: Shared)
    ensures 1 <= n <= 100 ==>
      HandleCommand(SetFanRequest(n), s) == Reply(FanSet(n), s.(autoDuty := 0, manualNext := n))
    ensures !(1 <= n <= 100) ==> HandleCommand(SetFanRequest(n), s) == Reply(InvalidDuty, s)
  {
    SetFanRequestParses(n);
    if 1 <= n <= 100 {
      ItoaLength(n);
    }
  }

  /** White space between the keyword and the number may be empty:
      "SET_FAN5" sets duty 5 just as "SET_FAN 5" does. */
  lemma SetFanWithoutSpace(n: int, s: Shared)
    requires 1 <= n <= 100
    ensures HandleCommand("SET_FAN" + Itoa(n), s) == Reply(FanSet(n), s.(autoDuty := 0, manualNext := n))
  {
    var cmd := "SET_FAN" + Itoa(n);
    SetFanPrefixed(Itoa(n));
    ScanKeywordInt("SET_FAN", [], n);
    assert "SET_FAN" + [] + Itoa(n) == cmd;
    ItoaLength(n);
  }

  /** "SET_FANX" takes the SET_FAN branch and is malformed there. */
  lemma SetFanMalformed(s: Shared)
    ensures HandleCommand("SET_FANX", s) == Reply(InvalidSetFan, s)
  {
    PrefixRequests();
    var x := "SET_FANX"[7..];
    assert x == "X" && SpaceRun(x) == 0 && DigitRun(x) == 0;
    assert Scan(SetFanFormat, "SET_FANX") == [];
  }

  /** GET_TEMP reports the two temperatures and changes nothing. */
  lemma GetTempReadOnly(s: Shared)
    requires IsInt32(s.cpuTemp) && IsInt32(s.gpuTemp)
    ensures HandleCommand("GET_TEMP", s).shared == s
    ensures Scan(TempFormat, HandleCommand("GET_TEMP", s).text) == [s.cpuTemp, s.gpuTemp]
  {
    ExactRequests();
    FieldsRoundTrip(TempLabels, [s.cpuTemp, s.gpuTemp]);
  }

  /** GET_FAN reports duty, RPM and mode and changes nothing. */
  lemma GetFanReadOnly(s: Shared)
    requires IsInt32(s.fanDuty) && IsInt32(s.fanRpms) && IsInt32(s.autoDuty)
    ensures HandleCommand("GET_FAN", s).shared == s
    ensures Scan(FanFormat, HandleCommand("GET_FAN", s).text) == [s.fanDuty, s.fanRpms, s.autoDuty]
  {
    ExactRequests();
    FieldsRoundTrip(FanLabels, [s.fanDuty, s.fanRpms, s.autoDuty]);
  }

  /** `SET_TARGET_TEMP n`, the request form of the target command. */
  function SetTargetRequest(n: int): string {
    "SET_TARGET_TEMP" + " " + Itoa(n)
  }

  /** The target request reaches the target branch and scans back to its
      number. */
  lemma SetTargetRequestParses(n: int)
    ensures Classify(SetTargetRequest(n)) == SetTargetReq
    ensures Scan(TargetFormat, SetTargetRequest(n)) == [n]
  {
    ScanKeywordInt("SET_TARGET_TEMP", " ", n);
    SetTargetPrefixed("P " + Itoa(n));
    assert "SET_TARGET_TEM" + ("P " + Itoa(n)) == SetTargetRequest(n);
  }

  /** A target request is validated against 40..100 and acknowledged, but
      the target never reaches the controller: the record is unchanged
      either way. */
  lemma SetTargetIgnored(n: int, s: Shared)
    ensures HandleCommand(SetTargetRequest(n), s)
      == Reply(if 40 <= n <= 100 then TargetSet(n) else InvalidTarget, s)
  {
    SetTargetRequestParses(n);
    if 40 <= n <= 100 {
      ItoaLength(n);
    }
  }
}
