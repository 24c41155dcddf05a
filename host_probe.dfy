/**
 * The pure parts of the host probe: quoting a word for a POSIX shell, reading the
 * probe script's `key=value` output, normalising the values, building the ssh target
 * and the ssh argument vector.
 */
module HostProbe {
  import opened Wrappers
  import opened Strings
  import opened Models

  // ---------------------------------------------------------------------------------
  // shell_quote

  /** Every `'` replaced by `'\''` (close the quotes, an escaped quote, reopen them). */
  function EscapeQuotes(s: string): string {
    if s == [] then []
    else (if s[0] == '\'' then "'\\''" else [s[0]]) + EscapeQuotes(s[1..])
  }

  /** `shell_quote`: the escaped text between single quotes. */
  function ShellQuote(s: string): string {
    "'" + EscapeQuotes(s) + "'"
  }

  /** The number of `'` in a string. */
  function QuoteCount(s: string): nat {
    if s == [] then 0 else (if s[0] == '\'' then 1 else 0) + QuoteCount(s[1..])
  }

  function Prepend(c: char, o: Option<string>): Option<string> {
    if o.Some? then Some([c] + o.value) else None
  }

  /**
   * How a POSIX shell reads quoting in one word, following section 2.2 of the Shell
   * Command Language of IEEE Std 1003.1: inside single quotes every character stands
   * for itself up to the closing `'`; outside them `'` opens a quoted region and a
   * backslash makes the next character stand for itself. An unclosed quote or a
   * trailing backslash is no word. Other unquoted characters are read as themselves
   * (word splitting and expansions are not part of this reader).
   */
  function Unquote(s: string, quoted: bool): Option<string>
    decreases |s|
  {
    if s == [] then (if quoted then None else Some([]))
    else if quoted then
      if s[0] == '\'' then Unquote(s[1..], false) else Prepend(s[0], Unquote(s[1..], true))
    else if s[0] == '\'' then Unquote(s[1..], true)
    else if s[0] == '\\' then (if |s| >= 2 then Prepend(s[1], Unquote(s[2..], false)) else None)
    else Prepend(s[0], Unquote(s[1..], false))
  }

  /** Inside quotes, `'\''` closes them, gives an escaped `'` and reopens them. */
  lemma UnquoteEscapedQuote(rest: string)
    ensures Unquote("'\\''" + rest, true) == Prepend('\'', Unquote(rest, true))
  {
    var t := "'\\''" + rest;
    assert t[0] == '\'' && t[1..] == "\\''" + rest;
    var u := t[1..];
    assert u[0] == '\\' && u[1] == '\'' && u[2..] == "'" + rest;
    assert u[2..][0] == '\'' && u[2..][1..] == rest;
    assert Unquote(u[2..], false) == Unquote(rest, true);
    assert Unquote(u, false) == Prepend('\'', Unquote(u[2..], false));
    assert Unquote(t, true) == Unquote(u, false);
  }

  /** Inside quotes, any other character stands for itself. */
  lemma UnquoteQuotedChar(c: char, rest: string)
    requires c != '\''
    ensures Unquote([c] + rest, true) == Prepend(c, Unquote(rest, true))
  {
    assert ([c] + rest)[1..] == rest;
  }

  /** The escaped text, read inside quotes up to a closing quote, gives back the text. */
  lemma {:induction false} UnquoteEscaped(s: string)
    ensures Unquote(EscapeQuotes(s) + "'", true) == Some(s)
  {
    if s == [] {
      assert EscapeQuotes(s) + "'" == "'";
      assert "'"[1..] == [];
    } else {
      UnquoteEscaped(s[1..]);
      var rest := EscapeQuotes(s[1..]) + "'";
      var head := if s[0] == '\'' then "'\\''" else [s[0]];
      assert EscapeQuotes(s) + "'" == head + rest;
      if s[0] == '\'' {
        UnquoteEscapedQuote(rest);
      } else {
        UnquoteQuotedChar(s[0], rest);
      }
      assert s == [s[0]] + s[1..];
    }
  }

  /**
   * `shell_quote(s)` starts and ends with `'`, is `s` with each `'` taking three more
   * characters, and a POSIX shell reads it back as exactly `s`.
   */
  lemma ShellQuoteRoundTrip(s: string)
    ensures var q := ShellQuote(s);
      && |q| >= 2 && q[0] == '\'' && q[|q| - 1] == '\''
      && |q| == |s| + 2 + 3 * QuoteCount(s)
      && Unquote(q, false) == Some(s)
  {
    UnquoteEscaped(s);
    EscapedLength(s);
    var q := ShellQuote(s);
    assert q[1..] == EscapeQuotes(s) + "'";
  }

  lemma {:induction false} EscapedLength(s: string)
    ensures |EscapeQuotes(s)| == |s| + 3 * QuoteCount(s)
  {
    if s != [] {
      EscapedLength(s[1..]);
    }
  }

  // ---------------------------------------------------------------------------------
  // maybe_text, parse_u32, parse_u64

  /** `maybe_text`: the trimmed value, unless it is empty or `unknown`. */
  function MaybeText(value: Option<string>): (r: Option<string>)
    ensures r.Some? <==> value.Some? && Trim(value.value) != [] && Trim(value.value) != "unknown"
    ensures r.Some? ==> r.value == Trim(value.value)
  {
    if value.None? then None
    else
      var v := Trim(value.value);
      if v == [] || v == "unknown" then None else Some(v)
  }

  /** Normalising twice is normalising once. */
  lemma MaybeTextIdempotent(value: Option<string>)
    ensures MaybeText(MaybeText(value)) == MaybeText(value)
  {
    if value.Some? {
      var v := Trim(value.value);
      TrimIdempotent(value.value);
      if v != [] && v != "unknown" {
        assert MaybeText(value) == Some(v);
        assert MaybeText(Some(v)) == Some(Trim(v));
      }
    }
  }

  /** `parse_u32`: the trimmed value as a `u32`, if it is one. */
  function ParseU32(value: Option<string>): (r: Option<nat>)
    ensures r.Some? <==> value.Some? && var d := UnsignedDigits(Trim(value.value));
      d != [] && AllDigits(d) && DigitsValue(d) <= U32Max
    ensures r.Some? ==> var d := UnsignedDigits(Trim(value.value));
      AllDigits(d) && r.value == DigitsValue(d) && r.value <= U32Max
  {
    if value.None? then None else ParseUnsigned(Trim(value.value), U32Max)
  }

  /** `parse_u64`: the trimmed value as a `u64`, if it is one. */
  function ParseU64(value: Option<string>): (r: Option<nat>)
    ensures r.Some? <==> value.Some? && var d := UnsignedDigits(Trim(value.value));
      d != [] && AllDigits(d) && DigitsValue(d) <= U64Max
    ensures r.Some? ==> var d := UnsignedDigits(Trim(value.value));
      AllDigits(d) && r.value == DigitsValue(d) && r.value <= U64Max
  {
    if value.None? then None else ParseUnsigned(Trim(value.value), U64Max)
  }

  /** A digit string is its own trim. */
  lemma TrimNatToString(n: nat)
    ensures Trim(NatToString(n)) == NatToString(n)
  {
    var d := NatToString(n);
    assert IsDigit(d[0]) && IsDigit(d[|d| - 1]);
    TrimOfTrimmed(d);
  }

  /** A number printed in range parses back, as a `u32` and as a `u64`. */
  lemma ParseRoundTrip(n: nat)
    ensures n <= U32Max ==> ParseU32(Some(NatToString(n))) == Some(n)
    ensures n <= U64Max ==> ParseU64(Some(NatToString(n))) == Some(n)
  {
    TrimNatToString(n);
    if n <= U32Max {
      ParseUnsignedOfNatToString(n, U32Max);
    }
    if n <= U64Max {
      ParseUnsignedOfNatToString(n, U64Max);
    }
  }

  // ---------------------------------------------------------------------------------
  // parse_kv

  /** A trimmed, non-empty line starting with `proc=` is a process line: its text after the prefix. */
  function ProcEntry(raw: string): Option<string> {
    var line := Trim(raw);
    if line == [] then None else StripPrefix(line, "proc=")
  }

  /** Any other trimmed, non-empty line with a `=`: the trimmed text on each side of the first `=`. */
  function KvEntry(raw: string): Option<(string, string)> {
    var line := Trim(raw);
    if line == [] || StripPrefix(line, "proc=").Some? then None
    else
      var kv := SplitOnce(line, '=');
      if kv.None? then None else Some((Trim(kv.value.0), Trim(kv.value.1)))
  }

  /** The map that inserting the entries of the lines in order builds. */
  function EntryMap(lines: seq<string>, entry: string -> Option<(string, string)>): map<string, string> {
    if lines == [] then map[]
    else
      var m := EntryMap(lines[..|lines| - 1], entry);
      var e := entry(lines[|lines| - 1]);
      if e.Some? then m[e.value.0 := e.value.1] else m
  }

  /** The map `parse_kv` builds from the lines. */
  function KvMap(lines: seq<string>): map<string, string> {
    EntryMap(lines, KvEntry)
  }

  /** The texts that the lines give, in order; lines that give none are skipped. */
  function Collected(lines: seq<string>, entry: string -> Option<string>): seq<string> {
    if lines == [] then []
    else
      var e := entry(lines[|lines| - 1]);
      Collected(lines[..|lines| - 1], entry) + (if e.Some? then [e.value] else [])
  }

  /** The process lines `parse_kv` collects from the lines. */
  function ProcLines(lines: seq<string>): seq<string> {
    Collected(lines, ProcEntry)
  }

  /** A process line never gives a map entry; a blank line gives neither. */
  lemma EntriesExclusive(raw: string)
    ensures ProcEntry(raw).Some? ==> KvEntry(raw).None?
    ensures IsBlank(raw) ==> ProcEntry(raw).None? && KvEntry(raw).None?
  {
  }

  /** Some line gives key `k`. */
  predicate HasKey(lines: seq<string>, entry: string -> Option<(string, string)>, k: string) {
    exists i :: 0 <= i < |lines| && entry(lines[i]).Some? && entry(lines[i]).value.0 == k
  }

  /** Line `i` gives `k` with value `v`, and no later line gives `k`. */
  predicate LastGives(lines: seq<string>, entry: string -> Option<(string, string)>, i: int, k: string, v: string) {
    && 0 <= i < |lines| && entry(lines[i]) == Some((k, v))
    && forall j :: i < j < |lines| ==> entry(lines[j]).None? || entry(lines[j]).value.0 != k
  }

  lemma {:induction false} EntryMapDomain(lines: seq<string>, entry: string -> Option<(string, string)>, k: string)
    ensures k in EntryMap(lines, entry) <==> HasKey(lines, entry, k)
  {
    if lines != [] {
      var init := lines[..|lines| - 1];
      EntryMapDomain(init, entry, k);
      if HasKey(init, entry, k) {
        var i :| 0 <= i < |init| && entry(init[i]).Some? && entry(init[i]).value.0 == k;
        assert lines[i] == init[i];
      }
      if HasKey(lines, entry, k) {
        var i :| 0 <= i < |lines| && entry(lines[i]).Some? && entry(lines[i]).value.0 == k;
        if i < |init| {
          assert lines[i] == init[i];
        }
      }
    }
  }

  lemma {:induction false} EntryMapValue(lines: seq<string>, entry: string -> Option<(string, string)>, k: string)
    requires k in EntryMap(lines, entry)
    ensures exists i :: LastGives(lines, entry, i, k, EntryMap(lines, entry)[k])
  {
    var init, last := lines[..|lines| - 1], lines[|lines| - 1];
    var e := entry(last);
    if e.Some? && e.value.0 == k {
      assert LastGives(lines, entry, |lines| - 1, k, EntryMap(lines, entry)[k]);
    } else {
      EntryMapValue(init, entry, k);
      var i :| LastGives(init, entry, i, k, EntryMap(init, entry)[k]);
      forall j | i < j < |lines|
        ensures entry(lines[j]).None? || entry(lines[j]).value.0 != k
      {
        if j < |init| {
          assert lines[j] == init[j];
        }
      }
      assert lines[i] == init[i];
      assert LastGives(lines, entry, i, k, EntryMap(lines, entry)[k]);
    }
  }

  /**
   * A key is in the map exactly when some line gives it, and its value is the one given
   * by the last such line.
   */
  lemma KvMapLastWins(lines: seq<string>, k: string)
    ensures k in KvMap(lines) <==> HasKey(lines, KvEntry, k)
    ensures k in KvMap(lines) ==> exists i :: LastGives(lines, KvEntry, i, k, KvMap(lines)[k])
  {
    EntryMapDomain(lines, KvEntry, k);
    if k in KvMap(lines) {
      EntryMapValue(lines, KvEntry, k);
    }
  }

  lemma {:induction false} CollectedAppend(a: seq<string>, b: seq<string>, entry: string -> Option<string>)
    ensures Collected(a + b, entry) == Collected(a, entry) + Collected(b, entry)
    decreases |b|
  {
    if b != [] {
      var init := b[..|b| - 1];
      assert (a + b)[..|a + b| - 1] == a + init;
      assert (a + b)[|a + b| - 1] == b[|b| - 1];
      CollectedAppend(a, init, entry);
    } else {
      assert a + b == a;
    }
  }

  /** The process lines of two runs of lines are those of the first run, then the second. */
  lemma ProcLinesAppend(a: seq<string>, b: seq<string>)
    ensures ProcLines(a + b) == ProcLines(a) + ProcLines(b)
  {
    CollectedAppend(a, b, ProcEntry);
  }

  /** One line contributes its process text, if it has one. */
  lemma ProcLinesOne(raw: string)
    ensures ProcLines([raw]) == if ProcEntry(raw).Some? then [ProcEntry(raw).value] else []
  {
    var e := ProcEntry(raw);
    assert [raw][..0] == [];
    assert ProcLines([raw]) == Collected([], ProcEntry) + (if e.Some? then [e.value] else []);
  }

  lemma KvStep(lines: seq<string>, i: nat)
    requires i < |lines|
    ensures KvMap(lines[..i + 1]) ==
      var e := KvEntry(lines[i]);
      if e.Some? then KvMap(lines[..i])[e.value.0 := e.value.1] else KvMap(lines[..i])
    ensures ProcLines(lines[..i + 1]) ==
      var e := ProcEntry(lines[i]);
      ProcLines(lines[..i]) + (if e.Some? then [e.value] else [])
  {
    assert lines[..i + 1][..i] == lines[..i];
  }

  /** `parse_kv`: one pass over the lines, filling the map and the process list. */
  method ParseKv(stdout: string) returns (kv: map<string, string>, procLines: seq<string>)
    ensures kv == KvMap(Lines(stdout)) && procLines == ProcLines(Lines(stdout))
  {
    var lines := Lines(stdout);
    kv, procLines := map[], [];
    for i := 0 to |lines|
      invariant kv == KvMap(lines[..i]) && procLines == ProcLines(lines[..i])
    {
      KvStep(lines, i);
      var line := Trim(lines[i]);
      if line == [] {
        continue;
      }
      var rest := StripPrefix(line, "proc=");
      if rest.Some? {
        procLines := procLines + [rest.value];
        continue;
      }
      var pair := SplitOnce(line, '=');
      if pair.Some? {
        kv := kv[Trim(pair.value.0) := Trim(pair.value.1)];
      }
    }
    assert lines[..|lines|] == lines;
  }

  // ---------------------------------------------------------------------------------
  // target_of

  /** `target_of`: `user@hostname` from the trimmed fields, or the hostname alone without a user. */
  function TargetOf(h: Host): string {
    var user, hostname := Trim(h.user), Trim(h.hostname);
    if user == [] then hostname else user + "@" + hostname
  }

  /** `user@hostname` with a user that is trimmed and not empty is trimmed and not blank. */
  lemma JoinedTargetTrimmed(user: string, hostname: string)
    requires user != [] && !IsWhitespace(user[0])
    requires hostname == [] || !IsWhitespace(hostname[|hostname| - 1])
    ensures !AllWhitespace(user + "@" + hostname)
    ensures Trim(user + "@" + hostname) == user + "@" + hostname
  {
    var t := user + "@" + hostname;
    assert t[0] == user[0];
    if hostname == [] {
      assert t[|t| - 1] == '@';
    } else {
      assert t[|t| - 1] == hostname[|hostname| - 1];
    }
    assert !IsWhitespace(t[0]);
    TrimOfTrimmed(t);
  }

  /**
   * The target is blank exactly when both the user and the hostname are blank, so a
   * user with a blank hostname passes the check as `user@`. The target is its own trim.
   */
  lemma TargetOfProperties(h: Host)
    ensures IsBlank(TargetOf(h)) <==> IsBlank(h.user) && IsBlank(h.hostname)
    ensures Trim(TargetOf(h)) == TargetOf(h)
  {
    var user, hostname := Trim(h.user), Trim(h.hostname);
    if user != [] {
      assert TargetOf(h) == user + "@" + hostname;
      assert !IsBlank(h.user);
      JoinedTargetTrimmed(user, hostname);
    } else {
      assert TargetOf(h) == hostname;
      assert IsBlank(h.user);
      assert IsBlank(hostname) <==> IsBlank(h.hostname);
      TrimIdempotent(h.hostname);
    }
  }

  // ---------------------------------------------------------------------------------
  // run_probe: the argument vector

  /** The ssh flags the probe passes; each takes one value. */
  datatype Flag = DashO | DashP | DashI | DashJ

  function FlagText(f: Flag): string {
    match f
    case DashO => "-o"
    case DashP => "-p"
    case DashI => "-i"
    case DashJ => "-J"
  }

  /** The flags are told apart by their text. */
  lemma FlagTextInjective(f: Flag, g: Flag)
    ensures FlagText(f) == FlagText(g) <==> f == g
  {
    if f != g {
      assert FlagText(f)[1] != FlagText(g)[1];
    }
  }

  /** The arguments of a sequence of options: each flag followed by its value. */
  function Flatten(ps: seq<(Flag, string)>): (r: seq<string>)
    ensures |r| == 2 * |ps|
  {
    if ps == [] then []
    else Flatten(ps[..|ps| - 1]) + [FlagText(ps[|ps| - 1].0), ps[|ps| - 1].1]
  }

  /** The values given with flag `f`, in order. */
  function ValuesOf(ps: seq<(Flag, string)>, f: Flag): seq<string> {
    if ps == [] then []
    else ValuesOf(ps[..|ps| - 1], f) + (if ps[|ps| - 1].0 == f then [ps[|ps| - 1].1] else [])
  }

  /** `-o` with each of the values, in order. */
  function OptionsWith(f: Flag, values: seq<string>): seq<(Flag, string)> {
    if values == [] then []
    else OptionsWith(f, values[..|values| - 1]) + [(f, values[|values| - 1])]
  }

  /** The `-o` values every probe passes. */
  const BaseValues: seq<string> := [
    "ConnectTimeout=8", "ConnectionAttempts=1", "StrictHostKeyChecking=accept-new",
    "ServerAliveInterval=10", "ServerAliveCountMax=1"
  ]

  /** The trimmed value, when there is one and it is not empty. */
  function NonBlankValue(v: Option<string>): (r: Option<string>)
    ensures r.Some? <==> v.Some? && !IsBlank(v.value)
    ensures r.Some? ==> r.value == Trim(v.value)
  {
    if v.Some? && Trim(v.value) != [] then Some(Trim(v.value)) else None
  }

  function PortOptions(h: Host): seq<(Flag, string)> {
    if h.port > 0 then [(DashP, NatToString(h.port))] else []
  }

  function ValueOption(f: Flag, v: Option<string>): seq<(Flag, string)> {
    var value := NonBlankValue(v);
    if value.Some? then [(f, value.value)] else []
  }

  function PasswordValues(hasPassword: bool): seq<string> {
    if hasPassword then ["BatchMode=no", "NumberOfPasswordPrompts=1"] else ["BatchMode=yes"]
  }

  /** The options before the target: base, port, identity file, jump host, batch mode. */
  function ProbeOptions(h: Host, hasPassword: bool): seq<(Flag, string)> {
    OptionsWith(DashO, BaseValues) + PortOptions(h) + ValueOption(DashI, h.identityFile)
      + ValueOption(DashJ, h.proxyJump) + OptionsWith(DashO, PasswordValues(hasPassword))
  }

  /**
   * The arguments `run_probe` gives `/usr/bin/ssh`, or its error for a blank target.
   * `password` is what the credential store holds for the host; a password counts
   * when it is not blank.
   */
  function ProbeArgs(h: Host, password: Option<string>, script: string): Result<seq<string>, string> {
    var target := TargetOf(h);
    if IsBlank(target) then Err("hostname is required")
    else Ok(Flatten(ProbeOptions(h, NonBlankValue(password).Some?)) + [target, "sh", "-lc", script])
  }

  lemma FlattenSnoc(ps: seq<(Flag, string)>, f: Flag, v: string)
    ensures Flatten(ps + [(f, v)]) == Flatten(ps) + [FlagText(f), v]
  {
    assert (ps + [(f, v)])[..|ps|] == ps;
  }

  lemma {:induction false} FlattenAppend(a: seq<(Flag, string)>, b: seq<(Flag, string)>)
    ensures Flatten(a + b) == Flatten(a) + Flatten(b)
    decreases |b|
  {
    if b == [] {
      assert a + b == a;
    } else {
      var init := b[..|b| - 1];
      assert (a + b)[..|a + b| - 1] == a + init;
      FlattenAppend(a, init);
    }
  }

  /** Argument `2k` is the flag of option `k` and argument `2k + 1` its value. */
  lemma {:induction false} FlattenIndex(ps: seq<(Flag, string)>)
    ensures forall k :: 0 <= k < |ps| ==> Flatten(ps)[2 * k] == FlagText(ps[k].0) && Flatten(ps)[2 * k + 1] == ps[k].1
  {
    if ps != [] {
      var init := ps[..|ps| - 1];
      FlattenIndex(init);
      forall k | 0 <= k < |ps|
        ensures Flatten(ps)[2 * k] == FlagText(ps[k].0) && Flatten(ps)[2 * k + 1] == ps[k].1
      {
        if k < |init| {
          assert ps[k] == init[k];
        }
      }
    }
  }

  lemma {:induction false} ValuesOfAppend(a: seq<(Flag, string)>, b: seq<(Flag, string)>, f: Flag)
    ensures ValuesOf(a + b, f) == ValuesOf(a, f) + ValuesOf(b, f)
    decreases |b|
  {
    if b == [] {
      assert a + b == a;
    } else {
      var init := b[..|b| - 1];
      assert (a + b)[..|a + b| - 1] == a + init;
      ValuesOfAppend(a, init, f);
    }
  }

  lemma {:induction false} ValuesOfOptionsWith(f: Flag, values: seq<string>, g: Flag)
    ensures ValuesOf(OptionsWith(f, values), g) == if f == g then values else []
  {
    if values != [] {
      var init := values[..|values| - 1];
      ValuesOfOptionsWith(f, init, g);
      ValuesOfAppend(OptionsWith(f, init), [(f, values[|values| - 1])], g);
      assert [(f, values[|values| - 1])][..0] == [];
      assert values == init + [values[|values| - 1]];
    }
  }

  lemma ValuesOfOne(ps: seq<(Flag, string)>, f: Flag)
    requires |ps| <= 1
    ensures ValuesOf(ps, f) == if ps != [] && ps[0].0 == f then [ps[0].1] else []
  {
    if ps != [] {
      assert ps[..0] == [];
    }
  }

  /** The fixed start of the argument vector, as `run_probe` writes it out. */
  lemma BaseArgsFlat()
    ensures Flatten(OptionsWith(DashO, BaseValues))
      == ["-o", "ConnectTimeout=8", "-o", "ConnectionAttempts=1", "-o", "StrictHostKeyChecking=accept-new",
          "-o", "ServerAliveInterval=10", "-o", "ServerAliveCountMax=1"]
  {
    var ps := OptionsWith(DashO, BaseValues);
    OptionsWithIndex(DashO, BaseValues);
    FlattenIndex(ps);
    var flat := Flatten(ps);
    assert flat[0] == "-o" && flat[1] == BaseValues[0];
    assert flat[2] == "-o" && flat[3] == BaseValues[1];
    assert flat[4] == "-o" && flat[5] == BaseValues[2];
    assert flat[6] == "-o" && flat[7] == BaseValues[3];
    assert flat[8] == "-o" && flat[9] == BaseValues[4];
  }

  /** Option `k` of `OptionsWith(f, values)` is `f` with value `k`. */
  lemma {:induction false} OptionsWithIndex(f: Flag, values: seq<string>)
    ensures |OptionsWith(f, values)| == |values|
    ensures forall k :: 0 <= k < |values| ==> OptionsWith(f, values)[k] == (f, values[k])
  {
    if values != [] {
      var init := values[..|values| - 1];
      OptionsWithIndex(f, init);
      forall k | 0 <= k < |values|
        ensures OptionsWith(f, values)[k] == (f, values[k])
      {
        if k < |init| {
          assert values[k] == init[k];
        }
      }
    }
  }

  /* The probe's options, flag by flag. */

  /**
   * The values each flag gets: `-o` the five fixed options and then the batch-mode ones,
   * `-p` the port when it is above 0, `-i` and `-J` the trimmed identity file and jump host
   * when they are not blank.
   */
  lemma ProbeOptionsValues(h: Host, hasPassword: bool, f: Flag)
    ensures ValuesOf(ProbeOptions(h, hasPassword), f)
      == (if f == DashO then BaseValues else [])
       + (if f == DashP && h.port > 0 then [NatToString(h.port)] else [])
       + (if f == DashI && NonBlankValue(h.identityFile).Some? then [NonBlankValue(h.identityFile).value] else [])
       + (if f == DashJ && NonBlankValue(h.proxyJump).Some? then [NonBlankValue(h.proxyJump).value] else [])
       + (if f == DashO then PasswordValues(hasPassword) else [])
  {
    var a, p, i, j, w := OptionsWith(DashO, BaseValues), PortOptions(h), ValueOption(DashI, h.identityFile),
      ValueOption(DashJ, h.proxyJump), OptionsWith(DashO, PasswordValues(hasPassword));
    assert ProbeOptions(h, hasPassword) == a + p + i + j + w;
    var vi, vj := NonBlankValue(h.identityFile), NonBlankValue(h.proxyJump);
    assert (if f == DashP then ValuesOf(p, DashP) else [])
      == (if f == DashP && h.port > 0 then [NatToString(h.port)] else []) by {
      ValuesOfOne(p, DashP);
    }
    assert i == [] || i == [(DashI, i[0].1)] by { ValueOptionValues(DashI, h.identityFile); }
    assert (if f == DashI then ValuesOf(i, DashI) else [])
      == (if f == DashI && vi.Some? then [vi.value] else []) by {
      ValueOptionValues(DashI, h.identityFile);
    }
    assert j == [] || j == [(DashJ, j[0].1)] by { ValueOptionValues(DashJ, h.proxyJump); }
    assert (if f == DashJ then ValuesOf(j, DashJ) else [])
      == (if f == DashJ && vj.Some? then [vj.value] else []) by {
      ValueOptionValues(DashJ, h.proxyJump);
    }
    FlagValues(a, p, i, j, w, f, BaseValues, PasswordValues(hasPassword));
  }

  /** `-p` comes with the port exactly when it is above 0. */
  lemma PortFlag(h: Host, hasPassword: bool)
    ensures ValuesOf(ProbeOptions(h, hasPassword), DashP) == (if h.port > 0 then [NatToString(h.port)] else [])
  {
    ProbeOptionsValues(h, hasPassword, DashP);
    DropEmpties(if h.port > 0 then [NatToString(h.port)] else []);
  }

  /** `-i` comes with the trimmed identity file exactly when it is not blank. */
  lemma IdentityFlag(h: Host, hasPassword: bool)
    ensures ValuesOf(ProbeOptions(h, hasPassword), DashI)
      == (if NonBlankValue(h.identityFile).Some? then [NonBlankValue(h.identityFile).value] else [])
  {
    ProbeOptionsValues(h, hasPassword, DashI);
    var v := NonBlankValue(h.identityFile);
    DropEmpties(if v.Some? then [v.value] else []);
  }

  /** `-J` comes with the trimmed jump host exactly when it is not blank. */
  lemma JumpFlag(h: Host, hasPassword: bool)
    ensures ValuesOf(ProbeOptions(h, hasPassword), DashJ)
      == (if NonBlankValue(h.proxyJump).Some? then [NonBlankValue(h.proxyJump).value] else [])
  {
    ProbeOptionsValues(h, hasPassword, DashJ);
    var v := NonBlankValue(h.proxyJump);
    DropEmpties(if v.Some? then [v.value] else []);
  }

  /**
   * `-o` comes with the five fixed options followed by `BatchMode=no` and
   * `NumberOfPasswordPrompts=1` when a password is saved, or `BatchMode=yes` when none is.
   */
  lemma OptionFlag(h: Host, hasPassword: bool)
    ensures ValuesOf(ProbeOptions(h, hasPassword), DashO) == BaseValues + PasswordValues(hasPassword)
  {
    ProbeOptionsValues(h, hasPassword, DashO);
    DropEmpty(BaseValues, PasswordValues(hasPassword));
  }

  /** Empty runs around one run drop out. */
  lemma DropEmpties<T>(x: seq<T>)
    ensures [] + x + [] + [] + [] == x
    ensures [] + [] + x + [] + [] == x
    ensures [] + [] + [] + x + [] == x
  {
  }

  /** An optional value gives at most one option, whose value is the trimmed text. */
  lemma ValueOptionValues(f: Flag, v: Option<string>)
    ensures ValueOption(f, v) == [] || ValueOption(f, v) == [(f, ValueOption(f, v)[0].1)]
    ensures ValuesOf(ValueOption(f, v), f) == if NonBlankValue(v).Some? then [NonBlankValue(v).value] else []
  {
    var o := ValueOption(f, v);
    ValuesOfOne(o, f);
  }

  lemma DropEmpty(x: seq<string>, y: seq<string>)
    ensures x + [] + [] + [] + y == x + y
  {
  }

  /**
   * The values of a flag in the five runs of the probe's options: the fixed `-o` and the
   * password `-o` options around the port, identity file and jump host options.
   */
  lemma FlagValues(a: seq<(Flag, string)>, p: seq<(Flag, string)>, i: seq<(Flag, string)>,
                   j: seq<(Flag, string)>, w: seq<(Flag, string)>, f: Flag, base: seq<string>, pw: seq<string>)
    requires a == OptionsWith(DashO, base) && w == OptionsWith(DashO, pw)
    requires p == [] || p == [(DashP, p[0].1)]
    requires i == [] || i == [(DashI, i[0].1)]
    requires j == [] || j == [(DashJ, j[0].1)]
    ensures ValuesOf(a + p + i + j + w, f)
      == (if f == DashO then base else []) + (if f == DashP then ValuesOf(p, DashP) else [])
         + (if f == DashI then ValuesOf(i, DashI) else [])
         + (if f == DashJ then ValuesOf(j, DashJ) else []) + (if f == DashO then pw else [])
  {
    ValuesOfParts(a, p, i, j, w, f);
    ValuesOfOptionsWith(DashO, base, f);
    ValuesOfOptionsWith(DashO, pw, f);
    ValuesOfOne(p, f);
    ValuesOfOne(i, f);
    ValuesOfOne(j, f);
  }

  /** The values of a flag in five runs of options. */
  lemma ValuesOfParts(a: seq<(Flag, string)>, p: seq<(Flag, string)>, i: seq<(Flag, string)>,
                      j: seq<(Flag, string)>, w: seq<(Flag, string)>, f: Flag)
    ensures ValuesOf(a + p + i + j + w, f)
      == ValuesOf(a, f) + ValuesOf(p, f) + ValuesOf(i, f) + ValuesOf(j, f) + ValuesOf(w, f)
  {
    ValuesOfAppend(a, p, f);
    ValuesOfAppend(a + p, i, f);
    ValuesOfAppend(a + p + i, j, f);
    ValuesOfAppend(a + p + i + j, w, f);
  }

  /** `run_probe` fails, with "hostname is required", exactly when the user and the hostname are both blank. */
  lemma ProbeArgsErr(h: Host, password: Option<string>, script: string)
    ensures ProbeArgs(h, password, script).Err? <==> IsBlank(h.user) && IsBlank(h.hostname)
    ensures ProbeArgs(h, password, script).Err? ==> ProbeArgs(h, password, script).error == "hostname is required"
  {
    TargetOfProperties(h);
  }

  /**
   * Otherwise the arguments are the options, each flag followed by its value and
   * starting with the five fixed ones, then the target, `sh`, `-lc` and the script.
   */
  lemma ProbeArgsShape(h: Host, password: Option<string>, script: string)
    requires ProbeArgs(h, password, script).Ok?
    ensures var args := ProbeArgs(h, password, script).value;
      var ps := ProbeOptions(h, NonBlankValue(password).Some?);
      && |args| == 2 * |ps| + 4
      && (forall k :: 0 <= k < |ps| ==> args[2 * k] == FlagText(ps[k].0) && args[2 * k + 1] == ps[k].1)
      && args[..10] == Flatten(OptionsWith(DashO, BaseValues))
      && args[|args| - 4..] == [TargetOf(h), "sh", "-lc", script]
  {
    var base := OptionsWith(DashO, BaseValues);
    var rest := PortOptions(h) + ValueOption(DashI, h.identityFile) + ValueOption(DashJ, h.proxyJump)
      + OptionsWith(DashO, PasswordValues(NonBlankValue(password).Some?));
    SplitFirst(base, PortOptions(h), ValueOption(DashI, h.identityFile), ValueOption(DashJ, h.proxyJump),
      OptionsWith(DashO, PasswordValues(NonBlankValue(password).Some?)));
    BaseArgsFlat();
    ArgsLayout(base, rest, [TargetOf(h), "sh", "-lc", script]);
  }

  lemma SplitFirst<T>(a: seq<T>, p: seq<T>, i: seq<T>, j: seq<T>, w: seq<T>)
    ensures a + p + i + j + w == a + (p + i + j + w)
  {
  }

  /** The layout of options followed by a fixed tail. */
  lemma ArgsLayout(base: seq<(Flag, string)>, rest: seq<(Flag, string)>, tail: seq<string>)
    ensures var ps := base + rest;
      var args := Flatten(ps) + tail;
      && |args| == 2 * |ps| + |tail|
      && (forall k :: 0 <= k < |ps| ==> args[2 * k] == FlagText(ps[k].0) && args[2 * k + 1] == ps[k].1)
      && args[..2 * |base|] == Flatten(base)
      && args[|args| - |tail|..] == tail
  {
    var ps := base + rest;
    FlattenAppend(base, rest);
    FlattenIndex(ps);
    var args := Flatten(ps) + tail;
    assert args[..2 * |base|] == Flatten(ps)[..2 * |base|] == Flatten(base);
  }

  /** One conditional push of a flag and its value. */
  lemma PushOption(args: seq<string>, ps: seq<(Flag, string)>, opt: seq<(Flag, string)>, f: Flag, v: string)
    requires args == Flatten(ps)
    requires opt == [(f, v)]
    ensures args + [FlagText(f)] + [v] == Flatten(ps + opt)
  {
    FlattenSnoc(ps, f, v);
  }

  lemma NoPush(args: seq<string>, ps: seq<(Flag, string)>, opt: seq<(Flag, string)>)
    requires args == Flatten(ps) && opt == []
    ensures args == Flatten(ps + opt)
  {
    assert ps + opt == ps;
  }

  lemma OptionsWithShort(f: Flag, a: string, b: string)
    ensures OptionsWith(f, [a]) == [(f, a)]
    ensures OptionsWith(f, [a, b]) == [(f, a), (f, b)]
  {
    assert [a][..0] == [];
    assert [a, b][..1] == [a];
  }

  lemma PasswordPushes(args: seq<string>, ps: seq<(Flag, string)>, hasPassword: bool)
    requires args == Flatten(ps)
    ensures hasPassword ==>
      (args + ["-o"] + ["BatchMode=no"] + ["-o"] + ["NumberOfPasswordPrompts=1"]
        == Flatten(ps + OptionsWith(DashO, PasswordValues(hasPassword))))
    ensures !hasPassword ==>
      (args + ["-o"] + ["BatchMode=yes"] == Flatten(ps + OptionsWith(DashO, PasswordValues(hasPassword))))
  {
    var w := PasswordValues(hasPassword);
    if hasPassword {
      var no, one := "BatchMode=no", "NumberOfPasswordPrompts=1";
      OptionsWithShort(DashO, no, one);
      SnocTwo(ps, (DashO, no), (DashO, one));
      FlattenSnoc(ps, DashO, no);
      FlattenSnoc(ps + [(DashO, no)], DashO, one);
      SnocPairs(args, "-o", no, "-o", one);
    } else {
      var yes := "BatchMode=yes";
      OptionsWithShort(DashO, yes, "");
      FlattenSnoc(ps, DashO, yes);
      SnocTwo(args, "-o", yes);
    }
  }

  lemma SnocTwo<T>(x: seq<T>, a: T, b: T)
    ensures x + [a, b] == x + [a] + [b]
  {
  }

  lemma SnocPairs<T>(x: seq<T>, a: T, b: T, c: T, d: T)
    ensures x + [a] + [b] + [c] + [d] == x + [a, b] + [c, d]
  {
  }

  /** `run_probe`'s argument building, pushing one argument at a time. */
  method BuildProbeArgs(h: Host, password: Option<string>, script: string) returns (r: Result<seq<string>, string>)
    ensures r == ProbeArgs(h, password, script)
  {
    var target := TargetOf(h);
    if Trim(target) == [] {
      return Err("hostname is required");
    }
    var args := ["-o", "ConnectTimeout=8", "-o", "ConnectionAttempts=1", "-o", "StrictHostKeyChecking=accept-new",
                 "-o", "ServerAliveInterval=10", "-o", "ServerAliveCountMax=1"];
    BaseArgsFlat();
    args := PushHostOptions(args, OptionsWith(DashO, BaseValues), h);
    ghost var ps := OptionsWith(DashO, BaseValues) + PortOptions(h) + ValueOption(DashI, h.identityFile)
      + ValueOption(DashJ, h.proxyJump);
    var hasPassword := password.Some? && Trim(password.value) != [];
    args := PushBatchMode(args, ps, hasPassword);
    assert ps + OptionsWith(DashO, PasswordValues(hasPassword)) == ProbeOptions(h, NonBlankValue(password).Some?);
    ghost var flat := args;
    args := args + [target];
    args := args + ["sh"];
    args := args + ["-lc"];
    args := args + [script];
    PushTail(flat, target, script);
    r := Ok(args);
  }

  /** The port, identity file and jump host pushes. */
  method PushHostOptions(args: seq<string>, ghost ps: seq<(Flag, string)>, h: Host) returns (r: seq<string>)
    requires args == Flatten(ps)
    ensures r == Flatten(ps + PortOptions(h) + ValueOption(DashI, h.identityFile) + ValueOption(DashJ, h.proxyJump))
  {
    r := args;
    if h.port > 0 {
      PushOption(r, ps, PortOptions(h), DashP, NatToString(h.port));
      r := r + ["-p"];
      r := r + [NatToString(h.port)];
    } else {
      NoPush(r, ps, PortOptions(h));
    }
    ghost var done := ps + PortOptions(h);
    if h.identityFile.Some? && Trim(h.identityFile.value) != [] {
      PushOption(r, done, ValueOption(DashI, h.identityFile), DashI, Trim(h.identityFile.value));
      r := r + ["-i"];
      r := r + [Trim(h.identityFile.value)];
    } else {
      NoPush(r, done, ValueOption(DashI, h.identityFile));
    }
    done := done + ValueOption(DashI, h.identityFile);
    if h.proxyJump.Some? && Trim(h.proxyJump.value) != [] {
      PushOption(r, done, ValueOption(DashJ, h.proxyJump), DashJ, Trim(h.proxyJump.value));
      r := r + ["-J"];
      r := r + [Trim(h.proxyJump.value)];
    } else {
      NoPush(r, done, ValueOption(DashJ, h.proxyJump));
    }
  }

  /** The batch-mode pushes: interactive with one password prompt when a password is saved. */
  method PushBatchMode(args: seq<string>, ghost ps: seq<(Flag, string)>, hasPassword: bool) returns (r: seq<string>)
    requires args == Flatten(ps)
    ensures r == Flatten(ps + OptionsWith(DashO, PasswordValues(hasPassword)))
  {
    PasswordPushes(args, ps, hasPassword);
    r := args;
    if hasPassword {
      r := r + ["-o"];
      r := r + ["BatchMode=no"];
      r := r + ["-o"];
      r := r + ["NumberOfPasswordPrompts=1"];
    } else {
      r := r + ["-o"];
      r := r + ["BatchMode=yes"];
    }
  }

  lemma PushTail(args: seq<string>, target: string, script: string)
    ensures args + [target] + ["sh"] + ["-lc"] + [script] == args + [target, "sh", "-lc", script]
  {
  }
}
