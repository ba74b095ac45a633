/** What the invocation log keeps of an argument list (internal/agentlog/agentlog.go).
    Characters stand for bytes. */
module Redaction {
  import opened References
  import opened Wrappers

  const VALUE := "<value>"

  predicate IsLongFlag(arg: string) {
    HasPrefix(arg, "--")
  }

  predicate IsShortFlag(arg: string) {
    |arg| >= 2 && arg[0] == '-' && arg[1] != '-'
  }

  predicate IsFlag(arg: string) {
    IsLongFlag(arg) || IsShortFlag(arg)
  }

  /** A byte turned into text: two bytes from 0x80 on. */
  function AsText(c: char): string {
    if c as int < 0x80 || c as int > 0xFF then [c]
    else [(0xC0 + c as int / 64) as char, (0x80 + c as int % 64) as char]
  }

  /** The text is the character in UTF-8: itself, or two bytes that spell it. */
  lemma AsTextSpells(c: char)
    ensures c as int < 0x80 ==> AsText(c) == [c]
    ensures 0x80 <= c as int <= 0xFF ==>
              && |AsText(c)| == 2 && 0xC2 <= AsText(c)[0] as int <= 0xC3 && 0x80 <= AsText(c)[1] as int <= 0xBF
              && (AsText(c)[0] as int - 0xC0) * 64 + (AsText(c)[1] as int - 0x80) == c as int
  {
  }

  function FlagName(arg: string): string
    requires IsFlag(arg)
  {
    if IsShortFlag(arg) then AsText(arg[1]) else arg[2..]
  }

  /** What is written for an argument that no flag consumes. */
  function Shown(arg: string, subCmds: Option<set<string>>): string {
    if !IsFlag(arg) then if subCmds.None? || arg in subCmds.value then arg else VALUE
    else if Cut(arg, '=').Some? then Cut(arg, '=').value.0 + "=<value>"
    else if IsShortFlag(arg) && |arg| > 2 then "-" + AsText(arg[1]) + VALUE
    else arg
  }

  /** A bare flag that is not boolean takes the next argument as its value. */
  predicate Consumes(arg: string, boolFlags: set<string>) {
    IsFlag(arg) && Cut(arg, '=').None? && !(IsShortFlag(arg) && |arg| > 2) && FlagName(arg) !in boolFlags
  }

  function Stripped(args: seq<string>, consume: bool, boolFlags: set<string>, subCmds: Option<set<string>>): seq<string> {
    if args == [] || args[0] == "--" then []
    else if consume then [VALUE] + Stripped(args[1..], false, boolFlags, subCmds)
    else [Shown(args[0], subCmds)] + Stripped(args[1..], Consumes(args[0], boolFlags), boolFlags, subCmds)
  }

  /** The body of the loop for an argument that no flag consumes. */
  method Show(arg: string, boolFlags: set<string>, subCmds: Option<set<string>>) returns (shown: string, consumeNext: bool)
    ensures shown == Shown(arg, subCmds) && consumeNext == Consumes(arg, boolFlags)
  {
    hide Cut, AsText;
    consumeNext := false;
    var isLongFlag := HasPrefix(arg, "--");
    var isShortFlag := |arg| >= 2 && arg[0] == '-' && arg[1] != '-';
    if !isLongFlag && !isShortFlag {
      shown := if subCmds.None? || arg in subCmds.value then arg else VALUE;
      return;
    }
    var cut := Cut(arg, '=');
    if cut.Some? {
      return cut.value.0 + "=<value>", false;
    }
    if isShortFlag && |arg| > 2 {
      return "-" + AsText(arg[1]) + VALUE, false;
    }
    shown := arg;
    var name := if isShortFlag then AsText(arg[1]) else arg[2..];
    consumeNext := name !in boolFlags;
  }

  method StripArgValues(args: seq<string>, boolFlags: set<string>, subCmds: Option<set<string>>) returns (out: seq<string>)
    ensures out == Stripped(args, false, boolFlags, subCmds)
  {
    hide Shown, Consumes, Stripped;
    out := [];
    var consumeNext := false;
    assert args[0..] == args && [] + Stripped(args, false, boolFlags, subCmds) == Stripped(args, false, boolFlags, subCmds);
    for i := 0 to |args|
      invariant out + Stripped(args[i..], consumeNext, boolFlags, subCmds) == Stripped(args, false, boolFlags, subCmds)
    {
      StrippedStep(args, i, consumeNext, boolFlags, subCmds);
      ghost var before := out;
      if args[i] == "--" {
        return;
      }
      if consumeNext {
        out := out + [VALUE];
        consumeNext := false;
      } else {
        var shown, consume := Show(args[i], boolFlags, subCmds);
        out := out + [shown];
        consumeNext := consume;
      }
      Regroup(before, out[|before|], Stripped(args[i + 1..], consumeNext, boolFlags, subCmds));
    }
    StrippedEnd(args, consumeNext, boolFlags, subCmds);
  }

  lemma Regroup(a: seq<string>, x: string, b: seq<string>)
    ensures a + ([x] + b) == (a + [x]) + b
  {
  }

  lemma StrippedStep(args: seq<string>, i: nat, consume: bool, boolFlags: set<string>, subCmds: Option<set<string>>)
    requires i < |args|
    ensures Stripped(args[i..], consume, boolFlags, subCmds)
            == if args[i] == "--" then []
               else if consume then [VALUE] + Stripped(args[i + 1..], false, boolFlags, subCmds)
               else [Shown(args[i], subCmds)] + Stripped(args[i + 1..], Consumes(args[i], boolFlags), boolFlags, subCmds)
  {
    hide Shown, Consumes;
    assert args[i..][0] == args[i] && args[i..][1..] == args[i + 1..];
  }

  lemma StrippedEnd(args: seq<string>, consume: bool, boolFlags: set<string>, subCmds: Option<set<string>>)
    ensures Stripped(args[|args|..], consume, boolFlags, subCmds) == []
  {
  }

  predicate UnknownPositional(arg: string, subCmds: set<string>) {
    !IsFlag(arg) && arg !in subCmds
  }

  predicate SameBeforeEquals(x: string, y: string) {
    IsFlag(x) && IsFlag(y) && Cut(x, '=').Some? && Cut(y, '=').Some? && Cut(x, '=').value.0 == Cut(y, '=').value.0
  }

  predicate Attached(arg: string) {
    IsShortFlag(arg) && |arg| > 2 && '=' !in arg
  }

  /** Two arguments that differ at most in a value. */
  predicate Alike(x: string, y: string, subCmds: set<string>) {
    || x == y
    || (UnknownPositional(x, subCmds) && UnknownPositional(y, subCmds))
    || SameBeforeEquals(x, y)
    || (Attached(x) && Attached(y) && x[1] == y[1])
  }

  /** A flag standing alone: `--name`, or a dash and one character, without an equals
      sign, and not one of the flags that take no value. */
  predicate StandsAlone(arg: string, boolFlags: set<string>) {
    || (|arg| >= 2 && arg[..2] == "--" && '=' !in arg && arg[2..] !in boolFlags)
    || (|arg| == 2 && arg[0] == '-' && arg[1] != '-' && arg[1] != '=' && AsText(arg[1]) !in boolFlags)
  }

  lemma ConsumesExactly(arg: string, boolFlags: set<string>)
    ensures Consumes(arg, boolFlags) <==> StandsAlone(arg, boolFlags)
  {
    CutIsExact(arg, '=');
    hide Cut, AsText;
    if |arg| == 2 {
      assert '=' in arg <==> arg[0] == '=' || arg[1] == '=';
    }
  }

  /** Argument `i` is the value of the flag before it. */
  ghost predicate IsValueAt(args: seq<string>, i: nat, consume: bool, boolFlags: set<string>)
    requires i < |args|
    decreases i
  {
    if i == 0 then consume else StandsAlone(args[i - 1], boolFlags) && !IsValueAt(args, i - 1, consume, boolFlags)
  }

  lemma {:induction false} ValueFurtherOn(args: seq<string>, i: nat, consume: bool, boolFlags: set<string>)
    requires 0 < i < |args|
    ensures IsValueAt(args, i, consume, boolFlags)
            == IsValueAt(args[1..], i - 1, StandsAlone(args[0], boolFlags) && !consume, boolFlags)
  {
    hide StandsAlone;
    if i > 1 {
      ValueFurtherOn(args, i - 1, consume, boolFlags);
    }
  }

  /** Position by position up to the first "--": the value of a bare flag is hidden
      whole, and everything else is written as `Shown` says. */
  lemma {:induction false} StrippedAt(args: seq<string>, i: nat, consume: bool, boolFlags: set<string>, subCmds: Option<set<string>>)
    requires i < |args| && forall j :: 0 <= j <= i ==> args[j] != "--"
    ensures i < |Stripped(args, consume, boolFlags, subCmds)|
    ensures Stripped(args, consume, boolFlags, subCmds)[i]
            == if IsValueAt(args, i, consume, boolFlags) then "<value>" else Shown(args[i], subCmds)
  {
    hide Shown, StandsAlone, Consumes;
    ConsumesExactly(args[0], boolFlags);
    if i > 0 {
      ValueFurtherOn(args, i, consume, boolFlags);
      StrippedAt(args[1..], i - 1, StandsAlone(args[0], boolFlags) && !consume, boolFlags, subCmds);
    }
  }

  /** What shows of an argument that is no value: a word only when it is a command, a flag
      up to its equals sign or its one letter. */
  lemma ShownExactly(arg: string, subCmds: Option<set<string>>)
    ensures var flag := |arg| >= 2 && arg[0] == '-';
            Shown(arg, subCmds)
            == if !flag then if subCmds.Some? && arg !in subCmds.value then "<value>" else arg
               else if '=' in arg then Before(arg) + "=<value>"
               else if arg[1] != '-' && |arg| > 2 then "-" + AsText(arg[1]) + "<value>"
               else arg
  {
    CutIsExact(arg, '=');
    if '=' in arg {
      BeforeIsCut(arg);
    }
    FlagShape(arg);
    hide Cut, AsText, IsLongFlag, Before;
  }

  lemma FlagShape(arg: string)
    ensures IsLongFlag(arg) <==> |arg| >= 2 && arg[0] == '-' && arg[1] == '-'
  {
    assert |arg| >= 2 ==> arg[..2] == [arg[0], arg[1]];
  }

  /** The text before the first equals sign. */
  ghost function Before(arg: string): string {
    if arg == "" || arg[0] == '=' then "" else [arg[0]] + Before(arg[1..])
  }

  lemma {:induction false} BeforeIsCut(arg: string)
    requires '=' in arg
    ensures Cut(arg, '=').Some? && Cut(arg, '=').value.0 == Before(arg)
  {
    if arg[0] != '=' {
      BeforeIsCut(arg[1..]);
    }
  }

  /** Two argument lists that differ only in value positions and after "--". */
  predicate DifferInValues(a: seq<string>, b: seq<string>, consume: bool, boolFlags: set<string>, subCmds: set<string>) {
    if a == [] || b == [] then a == b
    else if a[0] == "--" || b[0] == "--" then a[0] == b[0]
    else if consume then DifferInValues(a[1..], b[1..], false, boolFlags, subCmds)
    else Alike(a[0], b[0], subCmds) && DifferInValues(a[1..], b[1..], StandsAlone(a[0], boolFlags), boolFlags, subCmds)
  }

  lemma AlikeLooksTheSame(x: string, y: string, boolFlags: set<string>, subCmds: set<string>)
    requires Alike(x, y, subCmds)
    ensures Shown(x, Some(subCmds)) == Shown(y, Some(subCmds)) && Consumes(x, boolFlags) == Consumes(y, boolFlags)
  {
    CutIsExact(x, '=');
    CutIsExact(y, '=');
    hide Cut, AsText;
  }

  /** Values never show: lists that differ in values alone are logged alike. */
  lemma {:induction false} ValuesDoNotShow(a: seq<string>, b: seq<string>, consume: bool, boolFlags: set<string>, subCmds: set<string>)
    requires DifferInValues(a, b, consume, boolFlags, subCmds)
    ensures Stripped(a, consume, boolFlags, Some(subCmds)) == Stripped(b, consume, boolFlags, Some(subCmds))
  {
    hide Shown, Consumes, Alike, StandsAlone;
    if a != [] && b != [] && a[0] != "--" {
      if consume {
        ValuesDoNotShow(a[1..], b[1..], false, boolFlags, subCmds);
      } else {
        AlikeLooksTheSame(a[0], b[0], boolFlags, subCmds);
        ConsumesExactly(a[0], boolFlags);
        ValuesDoNotShow(a[1..], b[1..], Consumes(a[0], boolFlags), boolFlags, subCmds);
      }
    }
  }

  /** With an equals sign only the text after it is a value: what stands before it
      shows, even when it is attached to a one-letter flag. */
  lemma TextBeforeEqualsShows(x: string, y: string, subCmds: Option<set<string>>)
    requires IsFlag(x) && IsFlag(y) && '=' in x && '=' in y
    ensures Shown(x, subCmds) == Shown(y, subCmds) <==> SameBeforeEquals(x, y)
  {
    CutIsExact(x, '=');
    CutIsExact(y, '=');
    hide Cut;
    var a, b := Cut(x, '=').value.0, Cut(y, '=').value.0;
    if a + "=<value>" == b + "=<value>" {
      assert |a| == |b|;
      assert a == (a + "=<value>")[..|a|] && b == (b + "=<value>")[..|b|];
    }
  }

  /** Text attached to a one-letter flag is logged when an equals sign follows it. */
  lemma AttachedTextShows(text: string, value: string, boolFlags: set<string>, subCmds: set<string>)
    requires text != "" && '=' !in text
    ensures Stripped(["-p" + text + "=" + value], false, boolFlags, Some(subCmds)) == ["-p" + text + "=<value>"]
  {
    var arg := "-p" + text + "=" + value;
    assert arg == ("-p" + text) + ['='] + value;
    CutFinds("-p" + text, '=', value);
    hide Cut;
    assert IsShortFlag(arg) && arg != "--";
    assert [arg][1..] == [];
  }

  /** So two different passwords are logged differently. */
  lemma SecretShows(subCmds: set<string>)
    ensures Stripped(["-pSECRET=x"], false, {}, Some(subCmds)) != Stripped(["-pOTHER=x"], false, {}, Some(subCmds))
  {
    AttachedTextShows("SECRET", "x", {}, subCmds);
    AttachedTextShows("OTHER", "x", {}, subCmds);
    assert "-p" + "SECRET" + "=" + "x" == "-pSECRET=x" && "-p" + "OTHER" + "=" + "x" == "-pOTHER=x";
    assert ("-p" + "SECRET" + "=<value>")[2] == 'S' && ("-p" + "OTHER" + "=<value>")[2] == 'O';
    hide Stripped;
  }

  // ----- Trimming the log -----

  function Lines(data: string): nat {
    if data == "" then 0 else (if data[0] == '\n' then 1 else 0) + Lines(data[1..])
  }

  lemma {:induction false} LinesSplit(a: string, b: string)
    ensures Lines(a + b) == Lines(a) + Lines(b)
  {
    if a == "" {
      assert a + b == b;
    } else {
      assert (a + b)[1..] == a[1..] + b;
      LinesSplit(a[1..], b);
    }
  }

  /** Keeps whole trailing lines: the last `limit` of them, or everything. */
  method TrimLog(data: string, limit: nat) returns (kept: string)
    ensures Lines(data) <= limit ==> kept == data
    ensures Lines(data) > limit ==> Lines(kept) == limit && exists k :: 0 < k <= |data| && data[k - 1] == '\n' && kept == data[k..]
  {
    var count := Lines(data);
    if count <= limit {
      return data;
    }
    var drop := count - limit;
    for i := 0 to |data|
      invariant drop > 0 && Lines(data[i..]) == drop + limit && i < |data|
    {
      assert data[i..][0] == data[i] && data[i..][1..] == data[i + 1..];
      if data[i] == '\n' {
        drop := drop - 1;
        if drop == 0 {
          return data[i + 1..];
        }
      }
    }
    kept := data;
  }
}
