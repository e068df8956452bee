/**
 Recognising an operator's text command. The handler tests the stripped text
 against each command in a fixed order; this module turns the text into the
 command those tests select, so that the handler only dispatches.
 */
module Commands {
  import opened Wrappers
  import opened Text
  import opened DeviceState

  datatype Command =
    | Start
    | Leave
    | Help
    | On
    | Off
    | Status
    | Calib
      /** `/set` with three tokens, an integer value and a known key (the key as typed). */
    | Set(key: string, param: Param, value: int)
      /** `/set` text that is not three tokens, or whose value is not an integer. */
    | SetMalformed
      /** `/set` with an integer value but a key that names no parameter. */
    | SetUnknownKey(key: string)
    | Unknown

  /** The keys `/set` accepts; `window` and `window_ms` both name the window. */
  function ParamOf(key: string): (p: Option<Param>)
    ensures p == Some(Thr) <==> key == "thr"
    ensures p == Some(HoldMs) <==> key == "hold"
    ensures p == Some(CooldownS) <==> key == "cooldown"
    ensures p == Some(WindowMs) <==> key == "window" || key == "window_ms"
  {
    if key == "thr" then Some(Thr)
    else if key == "hold" then Some(HoldMs)
    else if key == "cooldown" then Some(CooldownS)
    else if key == "window" || key == "window_ms" then Some(WindowMs)
    else None
  }

  /** The `/set` branch on text already known to start with `/set`. */
  function ParseSet(t: string): Command
  {
    var ws := Split(t);
    if |ws| != 3 then SetMalformed
    else
      match ParseInt(ws[2])
      case None => SetMalformed
      case Some(v) =>
        match ParamOf(ws[1])
        case None => SetUnknownKey(ws[1])
        case Some(p) => Set(ws[1], p, v)
  }

  /** The command the handler's chain of tests selects for the message `text`. */
  function ParseCommand(text: string): Command
  {
    Dispatch(Strip(text))
  }

  /** The chain of tests on the stripped text, in the handler's order. */
  function Dispatch(t: string): Command
  {
    if t == "/start" then Start
    else if t == "/leave" then Leave
    else if t == "/help" || t == "help" then Help
    else if t == "/on" then On
    else if t == "/off" then Off
    else if t == "/status" then Status
    else if t == "/calib" || Lower(t) == "calib" then Calib
    else if StartsWith(t, "/set") then ParseSet(t)
    else Unknown
  }

  /** Every text whose stripped form begins with `/set` reaches the `/set` branch. */
  lemma SetPrefixSelectsSet(text: string)
    requires StartsWith(Strip(text), "/set")
    ensures ParseCommand(text) == ParseSet(Strip(text))
  {
    SetPrefixDispatch(Strip(text));
  }

  lemma SetPrefixDispatch(t: string)
    requires StartsWith(t, "/set")
    ensures Dispatch(t) == ParseSet(t)
  {
    assert t[0] == '/' && t[2] == 'e' && t[3] == 't';
    assert t != "/start" && t != "/status" by { assert "/start"[2] == 't' && "/status"[2] == 't'; }
    assert t != "/leave" && t != "/help" && t != "/on" && t != "/off" && t != "/calib" by {
      assert "/leave"[1] == 'l' && "/help"[1] == 'h' && "/calib"[1] == 'c';
      assert |"/on"| == 3 && |"/off"| == 4 && "/off"[1] == 'o';
    }
    assert t != "help" by { assert "help"[0] == 'h'; }
    assert Lower(t) != "calib" by { assert Lower(t)[0] == '/' && "calib"[0] == 'c'; }
  }

  /** `calib` is recognised in any mix of upper and lower case. */
  lemma CalibAnyCase(text: string)
    requires |Strip(text)| == 5
    requires forall i :: 0 <= i < 5 ==> LowerChar(Strip(text)[i]) == "calib"[i]
    ensures ParseCommand(text) == Calib
  {
    var t := Strip(text);
    assert Lower(t) == "calib";
    assert t[0] != '/' by { assert LowerChar(t[0]) == 'c'; }
    CalibDispatch(t);
  }

  lemma CalibDispatch(t: string)
    requires |t| == 5 && t[0] != '/' && Lower(t) == "calib"
    ensures Dispatch(t) == Calib
  {
    assert |"/start"| == 6 && |"/leave"| == 6 && |"/status"| == 7 && |"/calib"| == 6;
    assert |"help"| == 4 && |"/on"| == 3 && |"/off"| == 4;
    assert t != "/help" by { assert "/help"[0] == '/'; }
  }

  /** The `/set` branch accepts exactly three tokens with an integer last. */
  lemma ParseSetCases(t: string)
    ensures ParseSet(t).Set? <==>
      |Split(t)| == 3 && ParseInt(Split(t)[2]).Some? && ParamOf(Split(t)[1]).Some?
    ensures ParseSet(t).Set? ==>
      ParseSet(t) == Set(Split(t)[1], ParamOf(Split(t)[1]).value, ParseInt(Split(t)[2]).value)
    ensures ParseSet(t) == SetMalformed <==> |Split(t)| != 3 || ParseInt(Split(t)[2]).None?
    ensures ParseSet(t).SetUnknownKey? <==>
      |Split(t)| == 3 && ParseInt(Split(t)[2]).Some? && ParamOf(Split(t)[1]).None?
  {
  }

  /** The message `/set <key> <value>` with space-free key and value. */
  function SetText(key: string, value: string): string
  {
    "/set " + key + " " + value
  }

  lemma SetTextWords(key: string, value: string)
    requires IsWord(key) && IsWord(value)
    ensures Split(SetText(key, value)) == ["/set", key, value]
    ensures StartsWith(Strip(SetText(key, value)), "/set")
  {
    var ws := ["/set", key, value];
    SetTextJoin(key, value);
    SetWordIsWord();
    assert forall i :: 0 <= i < |ws| ==> IsWord(ws[i]);
    SplitJoinWords(ws);
    assert Split(JoinWords(ws)) == ws;
    SetTextStripped(key, value);
  }

  /** `/set` and its two arguments are three tokens whatever whitespace runs separate them. */
  lemma SetAnySpacing(sp1: string, key: string, sp2: string, value: string)
    requires IsWord(key) && IsWord(value)
    requires sp1 != [] && AllSpace(sp1) && sp2 != [] && AllSpace(sp2)
    ensures Split("/set" + sp1 + key + sp2 + value) == ["/set", key, value]
  {
    SetWordIsWord();
    SplitWord(value);
    SplitWordThenSpace(key, sp2, value);
    assert "/set" + sp1 + key + sp2 + value == "/set" + sp1 + (key + sp2 + value);
    SplitWordThenSpace("/set", sp1, key + sp2 + value);
  }

  lemma SetWordIsWord()
    ensures IsWord("/set")
  {
    var w := "/set";
    assert w[0] == '/' && w[1] == 's' && w[2] == 'e' && w[3] == 't';
  }

  lemma SetTextJoin(key: string, value: string)
    ensures JoinWords(["/set", key, value]) == SetText(key, value)
  {
    var ws := ["/set", key, value];
    assert ws[1..][1..] == [value];
    assert JoinWords(ws[1..]) == key + " " + value;
  }

  lemma SetTextStripped(key: string, value: string)
    requires IsWord(value)
    ensures StartsWith(Strip(SetText(key, value)), "/set")
  {
    var s := SetText(key, value);
    var tail := " " + key + " " + value;
    assert s == "/set" + tail;
    assert s[0] == '/' && !IsSpace('/');
    assert s[|s| - 1] == value[|value| - 1] && !IsSpace(value[|value| - 1]);
    assert Strip(s) == s;
    assert s[..4] == "/set";
  }

  /** A well-formed `/set` with a known key is recognised with the value it names. */
  lemma SetRecognised(key: string, p: Param, v: int)
    requires ParamOf(key) == Some(p)
    ensures ParseCommand(SetText(key, FormatInt(v))) == Set(key, p, v)
  {
    assert IsWord(key);
    SetTextWords(key, FormatInt(v));
    SetPrefixSelectsSet(SetText(key, FormatInt(v)));
    ParseFormatInt(v);
  }

  /** A `/set` whose value is not an integer is rejected, whatever the key. */
  lemma SetNonIntegerRejected(key: string, value: string)
    requires IsWord(key) && IsWord(value) && !IntLiteral(value)
    ensures ParseCommand(SetText(key, value)) == SetMalformed
  {
    SetTextWords(key, value);
    SetPrefixSelectsSet(SetText(key, value));
  }

  /** A `/set` with an integer value and an unknown key names that key. */
  lemma SetUnknownKeyRejected(key: string, v: int)
    requires IsWord(key) && ParamOf(key).None?
    ensures ParseCommand(SetText(key, FormatInt(v))) == SetUnknownKey(key)
  {
    SetTextWords(key, FormatInt(v));
    SetPrefixSelectsSet(SetText(key, FormatInt(v)));
    ParseFormatInt(v);
  }

  /** `/set` with fewer or more than two arguments is rejected. */
  lemma SetWrongArityRejected(text: string)
    requires StartsWith(Strip(text), "/set") && |Split(Strip(text))| != 3
    ensures ParseCommand(text) == SetMalformed
  {
    SetPrefixSelectsSet(text);
  }

  /** `/set cooldown 99999` is recognised with the value as typed; clamping happens when it is applied. */
  lemma CooldownExample()
    ensures ParseCommand("/set cooldown 99999") == Set("cooldown", CooldownS, 99999)
  {
    CooldownText();
    SetRecognised("cooldown", CooldownS, 99999);
  }

  lemma CooldownText()
    ensures SetText("cooldown", FormatInt(99999)) == "/set cooldown 99999"
  {
    FormatCooldown();
  }

  lemma FormatCooldown()
    ensures FormatInt(99999) == "99999"
  {
    assert FormatInt(99999) == "99999";
  }

  /** `/set thr abc` is rejected as malformed. */
  lemma NonIntegerExample()
    ensures ParseCommand("/set thr abc") == SetMalformed
  {
    assert !IntLiteral("abc") by { assert !IsDigit("abc"[0]); }
    assert IsWord("thr") && IsWord("abc");
    assert SetText("thr", "abc") == "/set thr abc";
    SetNonIntegerRejected("thr", "abc");
  }
}
