/** Windows command lines: quoting arguments so that the Microsoft C runtime's
    rules split them back. */
module WindowsQuoting {
  import opened ProcessTrace
  import opened OperatingSystem
  import opened Resources

  // ----- quoting -----

  /** A C string ends at its first NUL. */
  function CString(s: string): (c: string)
    ensures |c| <= |s| && '\0' !in c
    ensures '\0' !in s ==> c == s
  {
    if s == "" || s[0] == '\0' then "" else [s[0]] + CString(s[1..])
  }

  function Slashes(n: nat): (s: string)
    ensures |s| == n && forall i | 0 <= i < n :: s[i] == '\\'
  {
    seq(n, i => '\\')
  }

  predicate Special(c: char) {
    c == ' ' || c == '\t' || c == '"'
  }

  predicate NeedsQuotes(s: string) {
    s == "" || exists i :: 0 <= i < |s| && Special(s[i])
  }

  /** The inside of a quoted argument, n backslashes having been held back. */
  function Escape(s: string, n: nat): string {
    if s == "" then Slashes(2 * n)
    else if s[0] == '\\' then Escape(s[1..], n + 1)
    else if s[0] == '"' then Slashes(2 * n + 1) + "\"" + Escape(s[1..], 0)
    else Slashes(n) + [s[0]] + Escape(s[1..], 0)
  }

  function Quoted(s: string): string {
    if NeedsQuotes(s) then "\"" + Escape(s, 0) + "\"" else s
  }

  lemma {:induction false} EscapeLength(s: string, n: nat)
    ensures |Escape(s, n)| <= 2 * (n + |s|)
  {
    if s != "" {
      EscapeLength(s[1..], if s[0] == '\\' then n + 1 else 0);
    }
  }

  /** The quoted form and its terminator fit the buffer allocated for them. */
  lemma QuotedFits(s: string)
    ensures |Quoted(s)| + 1 <= 2 * |s| + 3
  {
    EscapeLength(s, 0);
  }

  /** Writes a run of backslashes. */
  method PutSlashes(out: array<char>, start: nat, count: nat) returns (end: nat)
    requires start + count <= out.Length
    modifies out
    ensures end == start + count
    ensures out[..end] == old(out[..start]) + Slashes(count)
  {
    end := start;
    while end < start + count
      invariant start <= end <= start + count
      invariant out[..end] == old(out[..start]) + Slashes(end - start)
    {
      out[end] := '\\';
      assert out[..end + 1] == out[..end] + ['\\'];
      assert Slashes(end - start) + ['\\'] == Slashes(end + 1 - start);
      end := end + 1;
    }
  }

  /** Backslashes, and a character behind them. */
  method PutBehind(out: array<char>, start: nat, count: nat, ch: char) returns (end: nat)
    requires start + count < out.Length
    modifies out
    ensures end == start + count + 1
    ensures out[..end] == old(out[..start]) + Slashes(count) + [ch]
  {
    end := PutSlashes(out, start, count);
    out[end] := ch;
    assert out[..end + 1] == out[..end] + [ch];
    end := end + 1;
  }

  lemma Regrouped(a: string, b: string, c: string, d: string)
    ensures (a + b + c) + d == a + (b + c + d)
  {
  }

  lemma EscapeStep(arg: string, index: nat, n: nat)
    requires index < |arg|
    ensures arg[index] == '\\' ==> Escape(arg[index..], n) == Escape(arg[index + 1..], n + 1)
    ensures arg[index] == '"' ==> Escape(arg[index..], n) == Slashes(2 * n + 1) + "\"" + Escape(arg[index + 1..], 0)
    ensures arg[index] != '\\' && arg[index] != '"' ==>
              Escape(arg[index..], n) == Slashes(n) + [arg[index]] + Escape(arg[index + 1..], 0)
  {
    assert arg[index..][1..] == arg[index + 1..] && arg[index..][0] == arg[index];
  }

  /** What has been written, and what is still to come, is the whole text. */
  ghost predicate Remaining(out: array<char>, used: nat, arg: string, index: nat, n: nat)
    requires used <= out.Length && index <= |arg|
    reads out
  {
    out[..used] + Escape(arg[index..], n) == "\"" + Escape(arg, 0)
  }

  /** One character of the argument. Backslashes are held back until it is known
      what follows them. */
  method PutChar(out: array<char>, start: nat, arg: string, index: nat, held: nat) returns (used: nat, n: nat)
    requires index < |arg| && start <= out.Length && Remaining(out, start, arg, index, held)
    requires |Escape(arg, 0)| + 1 < out.Length
    modifies out
    ensures used <= out.Length && Remaining(out, used, arg, index + 1, n)
  {
    EscapeStep(arg, index, held);
    var ch := arg[index];
    used, n := start, held;
    ghost var before, rest := out[..start], Escape(arg[index + 1..], 0);
    if ch == '\\' {
      n := n + 1;
    } else if ch == '"' {
      assert |before| + |Escape(arg[index..], held)| == 1 + |Escape(arg, 0)|;
      used := PutBehind(out, used, 2 * n + 1, '"');
      Regrouped(before, Slashes(2 * n + 1), "\"", rest);
      n := 0;
    } else {
      assert |before| + |Escape(arg[index..], held)| == 1 + |Escape(arg, 0)|;
      used := PutBehind(out, used, n, ch);
      Regrouped(before, Slashes(n), [ch], rest);
      n := 0;
    }
  }

  /** Quotes into a buffer of twice the length and three. */
  method QuoteInto(arg: string, out: array<char>) returns (used: nat)
    requires out.Length == 2 * |arg| + 3
    modifies out
    ensures used < out.Length && out[..used] == "\"" + Escape(arg, 0) + "\"" && out[used] == '\0'
  {
    EscapeLength(arg, 0);
    out[0] := '"';
    used := 1;
    var n: nat := 0;
    assert arg[0..] == arg;
    for index := 0 to |arg|
      invariant used <= out.Length && Remaining(out, used, arg, index, n)
    {
      used, n := PutChar(out, used, arg, index, n);
    }
    assert arg[|arg|..] == "";
    used := PutSlashes(out, used, 2 * n);
    out[used] := '"';
    assert out[..used + 1] == out[..used] + "\"";
    used := used + 1;
    out[used] := '\0';
  }

  method AnySpecial(s: string) returns (found: bool)
    ensures found <==> exists i :: 0 <= i < |s| && Special(s[i])
  {
    found := false;
    for i := 0 to |s|
      invariant found <==> exists k :: 0 <= k < i && Special(s[k])
    {
      if Special(s[i]) {
        found := true;
      }
    }
  }

  /** Quotes a C string; the result lives in a fresh block, or there is none. */
  method QuoteWindowsArg(arg: string, os: Os) returns (text: string, block: nat)
    modifies os`heap, os`refused
    ensures os.refused == old(os.refused) + if block == 0 then 1 else 0
    ensures block == 0 ==> os.heap == old(os.heap)
    ensures block != 0 ==> block !in old(os.heap) && os.heap == old(os.heap) + {block} && text == Quoted(arg)
  {
    text := "";
    var special := AnySpecial(arg);
    block := os.Alloc();
    if block == 0 {
      return;
    }
    if arg != "" && !special {
      text := arg;
      return;
    }
    var out := new char[2 * |arg| + 3];
    var used := QuoteInto(arg, out);
    text := out[..used];
  }

  /** The program and the arguments, each quoted, with single spaces between. */
  function Joined(program: string, args: seq<string>): string {
    if args == [] then Quoted(program)
    else Joined(program, args[..|args| - 1]) + " " + Quoted(CString(args[|args| - 1]))
  }

  /** Builds the command line. If any allocation fails, everything is given back;
      otherwise exactly the result is left. */
  method JoinWindowsCommand(program: string, args: seq<string>, os: Os) returns (command: string, block: nat)
    modifies os`heap, os`refused
    ensures os.refused == old(os.refused) + if block == 0 then 1 else 0
    ensures block == 0 ==> os.heap == old(os.heap)
    ensures block != 0 ==> block !in old(os.heap) && os.heap == old(os.heap) + {block} && command == Joined(program, args)
  {
    command, block := QuoteWindowsArg(program, os);
    if block == 0 {
      return;
    }
    assert Joined(program, []) == Quoted(program);
    hide Joined, Quoted, CString;
    assert args[..0] == [];
    for index := 0 to |args|
      invariant block != 0 && block !in old(os.heap) && os.heap == old(os.heap) + {block}
      invariant os.refused == old(os.refused)
      invariant command == Joined(program, args[..index])
    {
      command, block := AppendArg(command, block, args[index], os);
      if block == 0 {
        return;
      }
      assert args[..index + 1][..index] == args[..index] && args[..index + 1][index] == args[index];
      JoinedStep(program, args[..index + 1]);
    }
    assert args[..|args|] == args;
  }

  /** One more argument at the end of the command line, which is given up when an
      allocation fails. */
  method AppendArg(command: string, block: nat, arg: string, os: Os) returns (longer: string, next: nat)
    requires block != 0 && block in os.heap
    modifies os`heap, os`refused
    ensures os.refused == old(os.refused) + if next == 0 then 1 else 0
    ensures next == 0 ==> os.heap == old(os.heap) - {block}
    ensures next != 0 ==> next !in old(os.heap) - {block} && os.heap == old(os.heap) - {block} + {next}
    ensures next != 0 ==> longer == command + " " + Quoted(CString(arg))
  {
    hide Quoted, CString;
    longer, next := "", 0;
    var copy := os.Alloc();
    if copy == 0 {
      os.Free(block);
      return;
    }
    var quoted, quotedBlock := QuoteWindowsArg(CString(arg), os);
    os.Free(copy);
    if quotedBlock == 0 {
      os.Free(block);
      return;
    }
    next := os.Realloc(block);
    if next == 0 {
      os.Free(block);
      os.Free(quotedBlock);
      return;
    }
    longer := command + " " + quoted;
    os.Free(quotedBlock);
  }

  // ----- splitting by the runtime's rules -----

  predicate Blank(c: char) {
    c == ' ' || c == '\t'
  }

  /** One argument: pending counts backslashes whose meaning depends on what comes
      next. An even number before a quote halves and the quote opens or closes; an
      odd number halves and the quote is literal; two quotes inside quotes are one
      literal quote. */
  function ScanArg(s: string, pending: nat, inQuotes: bool, arg: string): (r: (string, string))
    ensures |r.1| <= |s|
    ensures s != "" && !Blank(s[0]) ==> |r.1| < |s|
    decreases |s|
  {
    if s == "" then (arg + Slashes(pending), "")
    else if s[0] == '\\' then ScanArg(s[1..], pending + 1, inQuotes, arg)
    else if s[0] == '"' && pending % 2 == 1 then ScanArg(s[1..], 0, inQuotes, arg + Slashes(pending / 2) + "\"")
    else if s[0] == '"' && inQuotes && |s| > 1 && s[1] == '"' then
      ScanArg(s[2..], 0, inQuotes, arg + Slashes(pending / 2) + "\"")
    else if s[0] == '"' then ScanArg(s[1..], 0, !inQuotes, arg + Slashes(pending / 2))
    else if Blank(s[0]) && !inQuotes then (arg + Slashes(pending), s)
    else ScanArg(s[1..], 0, inQuotes, arg + Slashes(pending) + [s[0]])
  }

  function SplitArgs(s: string): seq<string>
    decreases |s|
  {
    if s == "" then []
    else if Blank(s[0]) then SplitArgs(s[1..])
    else
      var (arg, rest) := ScanArg(s, 0, false, "");
      [arg] + SplitArgs(rest)
  }

  /** The program name ends at the first blank outside quotes; backslashes mean
      nothing in it. */
  function AfterProgram(s: string, inQuotes: bool): string {
    if s == "" then ""
    else if s[0] == '"' then AfterProgram(s[1..], !inQuotes)
    else if Blank(s[0]) && !inQuotes then s
    else AfterProgram(s[1..], inQuotes)
  }

  /** The arguments a process gets from a command line. */
  function Split(command: string): seq<string> {
    SplitArgs(AfterProgram(command, false))
  }

  // ----- the round trip -----

  predicate EndsArg(rest: string) {
    rest == "" || Blank(rest[0])
  }

  lemma {:induction false} ScanSlashes(k: nat, t: string, pending: nat, inQuotes: bool, arg: string)
    ensures ScanArg(Slashes(k) + t, pending, inQuotes, arg) == ScanArg(t, pending + k, inQuotes, arg)
  {
    if k > 0 {
      assert (Slashes(k) + t)[1..] == Slashes(k - 1) + t;
      ScanSlashes(k - 1, t, pending + 1, inQuotes, arg);
    } else {
      assert Slashes(0) + t == t;
    }
  }

  /** An odd run of backslashes before a quote. */
  lemma ScanLiteralQuote(n: nat, tail: string, arg: string)
    ensures ScanArg(Slashes(2 * n + 1) + "\"" + tail, 0, true, arg) == ScanArg(tail, 0, true, arg + Slashes(n) + "\"")
  {
    var here := "\"" + tail;
    assert Slashes(2 * n + 1) + "\"" + tail == Slashes(2 * n + 1) + here;
    ScanSlashes(2 * n + 1, here, 0, true, arg);
    assert here[1..] == tail;
  }

  /** Backslashes before an ordinary character inside quotes. */
  lemma ScanOrdinary(n: nat, c: char, tail: string, arg: string)
    requires c != '\\' && c != '"'
    ensures ScanArg(Slashes(n) + [c] + tail, 0, true, arg) == ScanArg(tail, 0, true, arg + Slashes(n) + [c])
  {
    var here := [c] + tail;
    assert Slashes(n) + [c] + tail == Slashes(n) + here;
    ScanSlashes(n, here, 0, true, arg);
    assert here[1..] == tail;
  }

  /** An even run of backslashes before the closing quote. */
  lemma ScanClosing(n: nat, rest: string, arg: string)
    requires EndsArg(rest)
    ensures ScanArg(Slashes(2 * n) + "\"" + rest, 0, true, arg) == ScanArg(rest, 0, false, arg + Slashes(n))
  {
    var here := "\"" + rest;
    assert Slashes(2 * n) + "\"" + rest == Slashes(2 * n) + here;
    ScanSlashes(2 * n, here, 0, true, arg);
    assert here[1..] == rest;
  }

  lemma EscapeShape(s: string, n: nat, rest: string)
    requires s != ""
    ensures s[0] == '\\' ==> Escape(s, n) + "\"" + rest == Escape(s[1..], n + 1) + "\"" + rest
    ensures s[0] == '"' ==>
              Escape(s, n) + "\"" + rest == Slashes(2 * n + 1) + "\"" + (Escape(s[1..], 0) + "\"" + rest)
    ensures s[0] != '\\' && s[0] != '"' ==>
              Escape(s, n) + "\"" + rest == Slashes(n) + [s[0]] + (Escape(s[1..], 0) + "\"" + rest)
  {
  }

  lemma Regroup(arg: string, n: nat, s: string)
    requires s != ""
    ensures s[0] == '\\' ==> arg + Slashes(n + 1) + s[1..] == arg + Slashes(n) + s
    ensures (arg + Slashes(n) + [s[0]]) + Slashes(0) + s[1..] == arg + Slashes(n) + s
  {
    assert s == [s[0]] + s[1..];
  }

  /** Reading an escaped argument to its closing quote restores it. */
  lemma {:induction false} ScanEscaped(s: string, n: nat, rest: string, arg: string)
    requires EndsArg(rest)
    ensures ScanArg(Escape(s, n) + "\"" + rest, 0, true, arg) == ScanArg(rest, 0, false, arg + Slashes(n) + s)
  {
    hide ScanArg, Slashes;
    if s == "" {
      ScanClosing(n, rest, arg);
      assert arg + Slashes(n) + s == arg + Slashes(n);
    } else {
      EscapeShape(s, n, rest);
      Regroup(arg, n, s);
      if s[0] == '\\' {
        ScanEscaped(s[1..], n + 1, rest, arg);
      } else {
        ScanEscaped(s[1..], 0, rest, arg + Slashes(n) + [s[0]]);
        if s[0] == '"' {
          ScanLiteralQuote(n, Escape(s[1..], 0) + "\"" + rest, arg);
        } else {
          ScanOrdinary(n, s[0], Escape(s[1..], 0) + "\"" + rest, arg);
        }
      }
    }
  }

  /** An argument with nothing special in it reads as itself. */
  lemma {:induction false} ScanPlain(s: string, pending: nat, rest: string, arg: string)
    requires EndsArg(rest) && forall i | 0 <= i < |s| :: !Special(s[i])
    ensures ScanArg(s + rest, pending, false, arg) == (arg + Slashes(pending) + s, rest)
  {
    if s == "" {
      assert s + rest == rest;
      assert arg + Slashes(pending) + s == arg + Slashes(pending);
    } else {
      assert (s + rest)[1..] == s[1..] + rest && (s + rest)[0] == s[0];
      if s[0] == '\\' {
        ScanPlain(s[1..], pending + 1, rest, arg);
        assert arg + Slashes(pending + 1) + s[1..] == arg + Slashes(pending) + s;
      } else {
        ScanPlain(s[1..], 0, rest, arg + Slashes(pending) + [s[0]]);
        assert arg + Slashes(pending) + [s[0]] + Slashes(0) + s[1..] == arg + Slashes(pending) + s;
      }
    }
  }

  /** A quoted argument reads back as the argument. */
  lemma ScanQuoted(s: string, rest: string)
    requires EndsArg(rest)
    ensures ScanArg(Quoted(s) + rest, 0, false, "") == (s, rest)
    ensures Quoted(s) != "" && !Blank(Quoted(s)[0])
  {
    hide Escape, ScanArg;
    assert "" + Slashes(0) + s == s;
    if NeedsQuotes(s) {
      var tail := Escape(s, 0) + "\"" + rest;
      assert Quoted(s) + rest == "\"" + tail;
      OpenQuote(tail);
      ScanEscaped(s, 0, rest, "");
      ArgEnds(rest, s);
    } else {
      ScanPlain(s, 0, rest, "");
      assert !Special(s[0]);
    }
  }

  lemma ArgEnds(rest: string, arg: string)
    requires EndsArg(rest)
    ensures ScanArg(rest, 0, false, arg) == (arg, rest)
  {
    assert arg + Slashes(0) == arg;
  }

  lemma OpenQuote(tail: string)
    ensures ScanArg("\"" + tail, 0, false, "") == ScanArg(tail, 0, true, "")
  {
    assert ("\"" + tail)[1..] == tail && "" + Slashes(0) == "";
  }

  /** The arguments alone, each after a space. */
  function Tail(args: seq<string>): string {
    if args == [] then "" else " " + Quoted(CString(args[0])) + Tail(args[1..])
  }

  function CStrings(args: seq<string>): seq<string> {
    if args == [] then [] else [CString(args[0])] + CStrings(args[1..])
  }

  lemma {:induction false} TailAppend(args: seq<string>, last: string)
    ensures Tail(args + [last]) == Tail(args) + " " + Quoted(CString(last))
  {
    if args == [] {
      assert args + [last] == [last];
      assert [last][1..] == [];
    } else {
      assert (args + [last])[1..] == args[1..] + [last];
      TailAppend(args[1..], last);
    }
  }

  lemma NoTail(program: string)
    ensures Joined(program, []) == Quoted(program) + Tail([])
  {
    hide Quoted;
  }

  lemma {:induction false} JoinedIsTail(program: string, args: seq<string>)
    ensures Joined(program, args) == Quoted(program) + Tail(args)
  {
    hide Quoted, CString, Tail;
    NoTail(program);
    if args != [] {
      var most, last := args[..|args| - 1], args[|args| - 1];
      JoinedIsTail(program, most);
      TailAppend(most, last);
      assert args == most + [last];
      JoinedStep(program, args);
      Associate(Quoted(program), Tail(most), " ", Quoted(CString(last)));
    }
  }

  lemma JoinedStep(program: string, args: seq<string>)
    requires args != []
    ensures Joined(program, args) == Joined(program, args[..|args| - 1]) + " " + Quoted(CString(args[|args| - 1]))
  {
    hide Quoted, CString;
  }

  lemma Associate(a: string, b: string, c: string, d: string)
    ensures (a + b) + c + d == a + (b + c + d)
  {
  }

  lemma {:induction false} SplitTail(args: seq<string>)
    ensures SplitArgs(Tail(args)) == CStrings(args)
    ensures EndsArg(Tail(args))
  {
    hide ScanArg, Quoted, CString;
    if args != [] {
      SplitTail(args[1..]);
      SplitOne(CString(args[0]), Tail(args[1..]));
      assert Tail(args) == " " + (Quoted(CString(args[0])) + Tail(args[1..]));
    }
  }

  lemma SplitOne(s: string, rest: string)
    requires EndsArg(rest)
    ensures SplitArgs(" " + (Quoted(s) + rest)) == [s] + SplitArgs(rest)
  {
    hide ScanArg, Quoted;
    ScanQuoted(s, rest);
    var text := Quoted(s) + rest;
    assert (" " + text)[1..] == text;
    assert text != "" && text[0] == Quoted(s)[0];
  }

  // ----- the program name -----

  /** The quoted program is read to its end and no further. */
  predicate ProgramWhole(program: string) {
    AfterProgram(Quoted(program) + " ", false) == " "
  }

  /** Quotes inside the name come in pairs with no blank between the two of a pair:
      the opening quote of the quoted form makes the state inside quotes first. */
  predicate QuotesBalance(s: string, inQuotes: bool) {
    if s == "" then inQuotes
    else if s[0] == '"' then QuotesBalance(s[1..], !inQuotes)
    else (inQuotes || !Blank(s[0])) && QuotesBalance(s[1..], inQuotes)
  }

  lemma {:induction false} AfterProgramMore(s: string, q: bool, rest: string)
    requires AfterProgram(s + " ", q) == " " && EndsArg(rest)
    ensures AfterProgram(s + rest, q) == rest
  {
    if s == "" {
      assert s + " " == " " && s + rest == rest;
    } else {
      assert (s + " ")[1..] == s[1..] + " " && (s + rest)[1..] == s[1..] + rest;
      assert |s + " "| > |" "|;
      AfterProgramMore(s[1..], if s[0] == '"' then !q else q, rest);
    }
  }

  lemma {:induction false} AfterSlashes(k: nat, t: string, q: bool)
    ensures AfterProgram(Slashes(k) + t, q) == AfterProgram(t, q)
  {
    if k > 0 {
      assert (Slashes(k) + t)[1..] == Slashes(k - 1) + t;
      AfterSlashes(k - 1, t, q);
    } else {
      assert Slashes(0) + t == t;
    }
  }

  lemma AfterQuote(t: string, q: bool)
    ensures AfterProgram("\"" + t, q) == AfterProgram(t, !q)
  {
    assert ("\"" + t)[1..] == t;
  }

  lemma AfterChar(c: char, t: string, q: bool)
    requires c != '"' && t != ""
    ensures AfterProgram([c] + t, q) == " " <==> !(Blank(c) && !q) && AfterProgram(t, q) == " "
  {
    assert ([c] + t)[1..] == t;
    assert |[c] + t| > |" "|;
  }

  lemma {:induction false} AfterEscaped(s: string, n: nat, q: bool)
    ensures AfterProgram(Escape(s, n) + "\"" + " ", q) == " " <==> QuotesBalance(s, q)
  {
    hide AfterProgram, Slashes;
    if s == "" {
      assert Escape(s, n) + "\"" + " " == Slashes(2 * n) + ("\"" + " ");
      AfterSlashes(2 * n, "\"" + " ", q);
      AfterQuote(" ", q);
      AfterBlank();
    } else {
      EscapeShape(s, n, " ");
      var tail := Escape(s[1..], 0) + "\"" + " ";
      if s[0] == '\\' {
        AfterEscaped(s[1..], n + 1, q);
      } else if s[0] == '"' {
        AfterEscaped(s[1..], 0, !q);
        assert Slashes(2 * n + 1) + "\"" + tail == Slashes(2 * n + 1) + ("\"" + tail);
        AfterSlashes(2 * n + 1, "\"" + tail, q);
        AfterQuote(tail, q);
      } else {
        AfterEscaped(s[1..], 0, q);
        assert Slashes(n) + [s[0]] + tail == Slashes(n) + ([s[0]] + tail);
        AfterSlashes(n, [s[0]] + tail, q);
        AfterChar(s[0], tail, q);
      }
    }
  }

  lemma AfterBlank()
    ensures AfterProgram(" ", false) == " " && AfterProgram(" ", true) == ""
  {
    assert " "[1..] == "";
  }

  lemma {:induction false} PlainWhole(s: string)
    requires forall i | 0 <= i < |s| :: !Special(s[i])
    ensures AfterProgram(s + " ", false) == " " && QuotesBalance(s, true)
  {
    if s == "" {
      assert s + " " == " ";
      AfterBlank();
    } else {
      assert (s + " ")[1..] == s[1..] + " ";
      PlainWhole(s[1..]);
    }
  }

  lemma WholeIffBalanced(program: string)
    ensures ProgramWhole(program) <==> QuotesBalance(program, true)
  {
    if NeedsQuotes(program) {
      var tail := Escape(program, 0) + "\"" + " ";
      assert Quoted(program) + " " == "\"" + tail;
      AfterQuote(tail, false);
      AfterEscaped(program, 0, true);
    } else {
      PlainWhole(program);
    }
  }

  /** Splitting the joined command line gives back the arguments, for every list of
      arguments, exactly when the quotes in the program name balance. */
  lemma RoundTrip(program: string, args: seq<string>)
    requires QuotesBalance(program, true)
    ensures Split(Joined(program, args)) == CStrings(args)
  {
    WholeIffBalanced(program);
    JoinedIsTail(program, args);
    SplitTail(args);
    AfterProgramMore(Quoted(program), false, Tail(args));
  }

  /** A text that does not end in a blank has something in it to split off. */
  lemma {:induction false} SomethingSplit(s: string)
    requires s != "" && !Blank(s[|s| - 1])
    ensures SplitArgs(s) != []
  {
    if Blank(s[0]) {
      SomethingSplit(s[1..]);
    }
  }

  /** A quoted name that is not read whole ends early, with its closing quote left
      over, or swallows what follows. */
  lemma {:induction false} UnbalancedShort(s: string, q: bool)
    requires s != "" && s[|s| - 1] == '"' && AfterProgram(s + " ", q) != " "
    ensures AfterProgram(s, q) != "" || AfterProgram(s + " a", q) == ""
    ensures AfterProgram(s, q) != "" ==> AfterProgram(s, q)[|AfterProgram(s, q)| - 1] == '"'
  {
    assert (s + " ")[1..] == s[1..] + " " && (s + " a")[1..] == s[1..] + " a";
    var next := if s[0] == '"' then !q else q;
    if Blank(s[0]) && !q {
    } else if |s| == 1 {
      assert s == "\"" && s[1..] == "" && "" + " " == " " && "" + " a" == " a";
      AfterBlank();
      assert " a"[1..] == "a" && "a"[1..] == "";
    } else {
      UnbalancedShort(s[1..], next);
    }
  }

  /** If they do not balance, some list of arguments does not come back: the empty
      one, or a single argument. */
  lemma UnbalancedLoses(program: string)
    requires !QuotesBalance(program, true)
    ensures Split(Joined(program, [])) != CStrings([]) || Split(Joined(program, ["a"])) != CStrings(["a"])
  {
    WholeIffBalanced(program);
    if NeedsQuotes(program) {
      var q := Quoted(program);
      UnbalancedShort(q, false);
      JoinedIsTail(program, []);
      JoinedIsTail(program, ["a"]);
      assert q + Tail([]) == q;
      PlainA();
      if AfterProgram(q, false) != "" {
        SomethingSplit(AfterProgram(q, false));
      }
    } else {
      PlainWhole(program);
    }
  }

  lemma PlainA()
    ensures Tail(["a"]) == " a" && CStrings(["a"]) != []
  {
    assert !NeedsQuotes("a");
    assert CString("a") == "a";
    assert ["a"][1..] == [];
    assert Tail([]) == "";
  }

  /** The command line is faithful for all argument lists if and only if the quotes
      in the program name balance; a name without quotes always does. */
  lemma FaithfulIff(program: string)
    ensures (forall args :: Split(Joined(program, args)) == CStrings(args)) <==> QuotesBalance(program, true)
  {
    if QuotesBalance(program, true) {
      forall args
        ensures Split(Joined(program, args)) == CStrings(args)
      {
        RoundTrip(program, args);
      }
    } else {
      UnbalancedLoses(program);
    }
  }

  lemma {:induction false} NoQuotesBalance(s: string)
    requires '"' !in s
    ensures QuotesBalance(s, true)
  {
    if s != "" {
      NoQuotesBalance(s[1..]);
    }
  }

  lemma {:induction false} NoNulsKept(args: seq<string>)
    requires forall i | 0 <= i < |args| :: '\0' !in args[i]
    ensures CStrings(args) == args
  {
    if args != [] {
      NoNulsKept(args[1..]);
    }
  }
}
