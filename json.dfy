/** The two hand-written string parsers of lib/coo_commons/json_utils.c: the command
    extraction of coo_json_parse_command and the "name/setting" split of
    coo_json_parse_key_pair. A C string is modelled by its characters before the terminator;
    an output buffer by the string it holds after the call, `None` when it is not written. */
module Json {
  import opened Common

  /** The errno values the parser returns negated. */
  const EINVAL: int := 22
  const ENOMEM: int := 12

  /** The markers searched for with `strstr`. */
  const CmdMarker: string := "\"cmd\":\""
  const ValueMarker: string := "\"value\":"

  // ---------------------------------------------------------------------------------------
  // Searching

  /** `pat` occurs in `s` starting at `i`. */
  predicate At(s: string, pat: string, i: nat)
  {
    i + |pat| <= |s| && s[i..i + |pat|] == pat
  }

  /** `strstr(s, pat)` as a position: the first occurrence of `pat` at or after `from`. */
  function FindFrom(s: string, pat: string, from: nat): (r: Option<nat>)
    requires from <= |s|
    ensures r.Some? ==> from <= r.value && At(s, pat, r.value)
    ensures r.Some? ==> forall i :: from <= i < r.value ==> !At(s, pat, i)
    ensures r.None? ==> forall i :: from <= i <= |s| ==> !At(s, pat, i)
    decreases |s| - from
  {
    if At(s, pat, from) then Some(from)
    else if from == |s| then None
    else FindFrom(s, pat, from + 1)
  }

  /** `strstr(s, pat)`: the first occurrence of `pat` in `s`, `None` for NULL. */
  function Find(s: string, pat: string): (r: Option<nat>)
    ensures r.None? <==> forall i :: 0 <= i <= |s| ==> !At(s, pat, i)
    ensures r.Some? ==> At(s, pat, r.value) && forall i :: 0 <= i < r.value ==> !At(s, pat, i)
  {
    FindFrom(s, pat, 0)
  }

  /** `strstr(s, pat) + strlen(pat)`: where the text after the first `pat` starts. */
  function After(s: string, pat: string): (r: Option<nat>)
    ensures r.None? <==> Find(s, pat).None?
    ensures r.Some? ==> |pat| <= r.value <= |s| && s[r.value - |pat|..r.value] == pat
  {
    match Find(s, pat)
    case None => None
    case Some(i) => Some(i + |pat|)
  }

  /** `strcspn(s, "<c>")`: the length of the longest prefix of `s` without `c`. */
  function Span(s: string, c: char): (n: nat)
    ensures n <= |s| && c !in s[..n]
    ensures n < |s| ==> s[n] == c
  {
    match FirstMatch(s, c)
    case None => assert s[..|s|] == s; |s|
    case Some(k) => k
  }

  // ---------------------------------------------------------------------------------------
  // coo_json_parse_key_pair

  /** The outcome of coo_json_parse_key_pair: the status and the contents of the two output
      buffers, `None` for a buffer left unwritten. */
  datatype KeyPair = KeyPair(code: int, name: Option<string>, setting: Option<string>)

  /** coo_json_parse_key_pair(key, out_name, maxName, out_setting, maxSetting). */
  function ParseKeyPair(key: string, maxName: nat, maxSetting: nat): (r: KeyPair)
    ensures r.code in {0, -1, -2, -3}
    ensures r.code == -1 <==> '/' !in key
    ensures r.code == -2 <==> '/' in key && (Span(key, '/') == 0 || Span(key, '/') >= maxName)
    ensures r.code == -1 || r.code == -2 ==> r.name.None? && r.setting.None?
    ensures r.code == -3 ==> r.setting.None?
    ensures r.code == 0 || r.code == -3 ==>
      && r.name.Some? && 0 < |r.name.value| < maxName && |r.name.value| < |key|
      && r.name.value == key[..|r.name.value|] && key[|r.name.value|] == '/' && '/' !in r.name.value
    ensures r.code == 0 ==>
      && r.setting.Some? && 0 < |r.setting.value| < maxSetting && '/' !in r.setting.value
      && var rest := key[|r.name.value| + 1..];
         |r.setting.value| <= |rest| && r.setting.value == rest[..|r.setting.value|]
         && (|r.setting.value| == |rest| || rest[|r.setting.value|] == '/')
  {
    match FirstMatch(key, '/')
    case None => KeyPair(-1, None, None)
    case Some(slash) =>
      if slash == 0 || slash >= maxName then KeyPair(-2, None, None)
      else
        var name := key[..slash];
        var rest := key[slash + 1..];
        var settingLen := Span(rest, '/');
        if settingLen == 0 || settingLen >= maxSetting then KeyPair(-3, Some(name), None)
        else KeyPair(0, Some(name), Some(rest[..settingLen]))
  }

  /** A slash-free name and setting that fit their buffers come back out of
      "name/setting", and out of "name/setting/anything": the setting stops at the next
      slash. */
  lemma KeyPairRoundTrip(name: string, setting: string, tail: Option<string>,
                         maxName: nat, maxSetting: nat)
    requires '/' !in name && '/' !in setting
    requires 0 < |name| < maxName && 0 < |setting| < maxSetting
    ensures var key := name + "/" + setting + (if tail.Some? then "/" + tail.value else "");
      ParseKeyPair(key, maxName, maxSetting) == KeyPair(0, Some(name), Some(setting))
  {
    var suffix := if tail.Some? then "/" + tail.value else "";
    var key := name + "/" + setting + suffix;
    assert key[..|name|] == name && key[|name|] == '/';
    assert FirstMatch(key, '/') == Some(|name|);
    var rest := key[|name| + 1..];
    assert rest == setting + suffix;
    assert rest[..|setting|] == setting;
    assert Span(rest, '/') == |setting| by {
      if tail.Some? {
        assert rest[|setting|] == '/';
      } else {
        assert rest == setting;
      }
    }
  }

  /** A key whose name is fine but whose setting is empty or too long is rejected with -3
      after the name has been written. */
  lemma KeyPairNameFirst(name: string, rest: string, maxName: nat, maxSetting: nat)
    requires '/' !in name && 0 < |name| < maxName
    requires Span(rest, '/') == 0 || Span(rest, '/') >= maxSetting
    ensures ParseKeyPair(name + "/" + rest, maxName, maxSetting) == KeyPair(-3, Some(name), None)
  {
    var key := name + "/" + rest;
    assert key[..|name|] == name && key[|name|] == '/';
    assert FirstMatch(key, '/') == Some(|name|);
    assert key[|name| + 1..] == rest;
  }

  // ---------------------------------------------------------------------------------------
  // coo_json_parse_command

  /** The outcome of coo_json_parse_command: the status, the command buffer's contents
      (`None` when unwritten) and the caller's float (`None` when `value_out` is NULL). */
  datatype Command = Command(code: int, cmd: Option<string>, value: Option<real>)

  /** coo_json_parse_command(json, cmd_out, cmdSize, value_out). `value` is the caller's float
      before the call, `None` when `value_out` is NULL. `strtof` stands for the C library's
      conversion of the text after the value marker, which this model leaves unspecified. */
  function ParseCommand(json: string, cmdSize: nat, value: Option<real>, strtof: string -> real)
    : (r: Command)
    ensures r.code in {0, -EINVAL, -ENOMEM}
    ensures r.code != 0 ==> r.cmd.None? && r.value == value
    ensures r.code == 0 ==> r.cmd.Some? && |r.cmd.value| < cmdSize && '"' !in r.cmd.value
    ensures r.code == 0 && value.None? ==> r.value.None?
    ensures r.code == 0 && value.Some? ==>
      var vs := After(json, ValueMarker);
      r.value == if vs.None? then Some(0.0) else Some(strtof(json[vs.value..]))
  {
    match After(json, CmdMarker)
    case None => Command(-EINVAL, None, value)
    case Some(start) =>
      var rest := json[start..];
      match FirstMatch(rest, '"')
      case None => Command(-EINVAL, None, value)
      case Some(len) =>
        if len >= cmdSize then Command(-ENOMEM, None, value)
        else
          var cmd := rest[..len];
          var parsed :=
            if value.None? then None
            else match After(json, ValueMarker)
              case None => Some(0.0)
              case Some(v) => Some(strtof(json[v..]));
          Command(0, Some(cmd), parsed)
  }

  /** A message that starts with the command marker yields the quoted command when it fits
      the buffer, whatever follows its closing quote, and -ENOMEM when it does not. */
  lemma CommandRoundTrip(cmd: string, tail: string, cmdSize: nat, value: Option<real>,
                         strtof: string -> real)
    requires '"' !in cmd
    ensures var r := ParseCommand(CmdMarker + cmd + "\"" + tail, cmdSize, value, strtof);
      && (|cmd| < cmdSize ==> r.code == 0 && r.cmd == Some(cmd))
      && (|cmd| >= cmdSize ==> r == Command(-ENOMEM, None, value))
  {
    var json := CmdMarker + cmd + "\"" + tail;
    CommandOutcome(json, cmdSize, value, strtof);
    MarkerFirst(cmd + "\"" + tail);
    assert json == CmdMarker + (cmd + "\"" + tail);
    QuoteAfter(cmd, tail);
  }

  /** A message that starts with the command marker has its command start right after it. */
  lemma MarkerFirst(s: string)
    ensures After(CmdMarker + s, CmdMarker) == Some(|CmdMarker|)
    ensures (CmdMarker + s)[|CmdMarker|..] == s
  {
    assert At(CmdMarker + s, CmdMarker, 0);
  }

  /** The first quote of `cmd"tail` closes a quote-free `cmd`. */
  lemma QuoteAfter(cmd: string, tail: string)
    requires '"' !in cmd
    ensures FirstMatch(cmd + "\"" + tail, '"') == Some(|cmd|)
    ensures (cmd + "\"" + tail)[..|cmd|] == cmd
  {
    var s := cmd + "\"" + tail;
    assert s[..|cmd|] == cmd && s[|cmd|] == '"';
  }

  /** How coo_json_parse_command's status and command follow from the two searches it makes. */
  lemma CommandOutcome(json: string, cmdSize: nat, value: Option<real>, strtof: string -> real)
    ensures var r := ParseCommand(json, cmdSize, value, strtof);
      var start := After(json, CmdMarker);
      && (start.None? ==> r.code == -EINVAL)
      && (start.Some? ==>
            var m := FirstMatch(json[start.value..], '"');
            && (m.None? ==> r.code == -EINVAL)
            && (m.Some? && m.value >= cmdSize ==> r.code == -ENOMEM)
            && (m.Some? && m.value < cmdSize ==>
                  r.code == 0 && r.cmd == Some(json[start.value..][..m.value])))
  {
  }

  /** coo_json_parse_command fails with -EINVAL exactly when the command marker is missing or
      no quote closes the command after it. */
  lemma ParseCommandInvalid(json: string, cmdSize: nat, value: Option<real>, strtof: string -> real)
    ensures var start := After(json, CmdMarker);
      (ParseCommand(json, cmdSize, value, strtof).code == -EINVAL)
        <==> (start.None? || '"' !in json[start.value..])
  {
    CommandOutcome(json, cmdSize, value, strtof);
  }

  /** coo_json_parse_command fails with -ENOMEM exactly when the quoted command does not fit
      `cmdSize` bytes with its terminator. */
  lemma ParseCommandNoRoom(json: string, cmdSize: nat, value: Option<real>, strtof: string -> real)
    ensures var start := After(json, CmdMarker);
      (ParseCommand(json, cmdSize, value, strtof).code == -ENOMEM)
        <==> (start.Some? && '"' in json[start.value..] && Span(json[start.value..], '"') >= cmdSize)
  {
    CommandOutcome(json, cmdSize, value, strtof);
    var start := After(json, CmdMarker);
    if start.Some? && '"' in json[start.value..] {
      assert Span(json[start.value..], '"') == FirstMatch(json[start.value..], '"').value;
    }
  }

  /** On success the command is exactly the text between the command marker and the next
      quote. */
  lemma ParseCommandQuoted(json: string, cmdSize: nat, value: Option<real>, strtof: string -> real)
    requires ParseCommand(json, cmdSize, value, strtof).code == 0
    ensures var r := ParseCommand(json, cmdSize, value, strtof);
      var start := After(json, CmdMarker);
      start.Some? && At(json, r.cmd.value + "\"", start.value)
  {
    CommandOutcome(json, cmdSize, value, strtof);
    var start := After(json, CmdMarker).value;
    QuotedAt(json, start, FirstMatch(json[start..], '"').value);
  }

  /** Text that runs from `start` up to a quote, followed by that quote, occurs at `start`. */
  lemma QuotedAt(json: string, start: nat, len: nat)
    requires start + len < |json| && json[start + len] == '"'
    ensures At(json, json[start..][..len] + "\"", start)
  {
    var c := json[start..][..len];
    forall k | 0 <= k < len + 1
      ensures json[start..start + len + 1][k] == (c + "\"")[k]
    {
    }
  }

  /** The only colon of `"cmd":"<cmd>"}` is the marker's own when the command has none. */
  lemma ColonOnlyInMarker(cmd: string, i: nat)
    requires ':' !in cmd && i < |CmdMarker + cmd + "\"}"|
    ensures (CmdMarker + cmd + "\"}")[i] == ':' <==> i == 5
  {
    var json := CmdMarker + cmd + "\"}";
    if i < |CmdMarker| {
      assert json[i] == CmdMarker[i];
    } else if i < |CmdMarker| + |cmd| {
      assert json[i] == cmd[i - |CmdMarker|];
    } else {
      assert json[i] == "\"}"[i - |CmdMarker| - |cmd|];
    }
  }

  /** `"cmd":"<cmd>"}` holds no value marker when the command has no colon. */
  lemma NoValueMarker(cmd: string)
    requires ':' !in cmd
    ensures After(CmdMarker + cmd + "\"}", ValueMarker).None?
  {
    var json := CmdMarker + cmd + "\"}";
    forall i | 0 <= i <= |json|
      ensures !At(json, ValueMarker, i)
    {
      if i + |ValueMarker| <= |json| {
        ColonOnlyInMarker(cmd, i + 7);
        NoColonNoMarker(json, i);
      }
    }
  }

  /** The value marker ends in a colon, so it cannot start where the eighth character is not
      one. */
  lemma NoColonNoMarker(json: string, i: nat)
    requires i + |ValueMarker| <= |json| && json[i + 7] != ':'
    ensures !At(json, ValueMarker, i)
  {
    assert json[i..i + |ValueMarker|][7] == json[i + 7];
    assert ValueMarker[7] == ':';
  }

  /** A message without a value field leaves a given float at 0.0 on success. */
  lemma CommandValueDefault(cmd: string, cmdSize: nat, v: real, strtof: string -> real)
    requires '"' !in cmd && |cmd| < cmdSize && ':' !in cmd
    ensures ParseCommand(CmdMarker + cmd + "\"}", cmdSize, Some(v), strtof)
      == Command(0, Some(cmd), Some(0.0))
  {
    var json := CmdMarker + cmd + "\"}";
    CommandRoundTrip(cmd, "}", cmdSize, Some(v), strtof);
    assert json == CmdMarker + cmd + "\"" + "}";
    var r := ParseCommand(json, cmdSize, Some(v), strtof);
    NoValueMarker(cmd);
    assert r.value == Some(0.0);
  }
}
