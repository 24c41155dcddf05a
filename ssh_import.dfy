/**
 * The importer of OpenSSH client configuration: comment stripping, the `Host` pattern
 * filter, the line-by-line block parser and the scan that merges the files, keeps the
 * first candidate per alias (ignoring ASCII case) and sorts the candidates by alias.
 */
module SshImport {
  import opened Wrappers
  import opened Strings
  import opened Models

  // ---------------------------------------------------------------------------------
  // strip_comments

  /** Whether the scan is inside a single-quoted and/or a double-quoted region. */
  datatype Quotes = Quotes(inSingle: bool, inDouble: bool)

  const Unquoted := Quotes(false, false)

  /**
   * The quote state after one character: a quote character toggles its own region
   * only when it is not inside a region of the other kind.
   */
  function QuoteStep(q: Quotes, c: char): (r: Quotes)
    ensures c != '\'' && c != '"' ==> r == q
    ensures c == '\'' && q.inDouble ==> r == q
    ensures c == '"' && q.inSingle ==> r == q
    ensures c == '\'' && !q.inDouble ==> r == Quotes(!q.inSingle, q.inDouble)
    ensures c == '"' && !q.inSingle ==> r == Quotes(q.inSingle, !q.inDouble)
    ensures !(q.inSingle && q.inDouble) ==> !(r.inSingle && r.inDouble)
  {
    if c == '\'' && !q.inDouble then q.(inSingle := !q.inSingle)
    else if c == '"' && !q.inSingle then q.(inDouble := !q.inDouble)
    else q
  }

  /** The quote state after reading `s` from state `q`. */
  function QuotesAfter(q: Quotes, s: string): Quotes
    decreases |s|
  {
    if s == [] then q else QuotesAfter(QuoteStep(q, s[0]), s[1..])
  }

  /** `c` starts a comment when it is `#` outside both kinds of quotes. */
  predicate CommentAt(q: Quotes, c: char) {
    c == '#' && !q.inSingle && !q.inDouble
  }

  /** The characters of `s` read from quote state `q` up to the first comment. */
  function StripFrom(s: string, q: Quotes): (r: string)
    ensures |r| <= |s| && r == s[..|r|]
    decreases |s|
  {
    if s == [] then []
    else if CommentAt(q, s[0]) then []
    else [s[0]] + StripFrom(s[1..], QuoteStep(q, s[0]))
  }

  /** What `strip_comments` returns for a line. */
  function Stripped(s: string): string {
    StripFrom(s, Unquoted)
  }

  /**
   * The stripped text stops at the first `#` outside quotes: no character it keeps
   * starts a comment (a kept `#` is inside quotes), and if it is shorter than the
   * input, the next character does start one.
   */
  lemma {:induction false} StripFromStopsAtComment(s: string, q: Quotes)
    ensures var r := StripFrom(s, q);
      && (|r| < |s| ==> CommentAt(QuotesAfter(q, s[..|r|]), s[|r|]))
      && (forall i :: 0 <= i < |r| ==> !CommentAt(QuotesAfter(q, s[..i]), s[i]))
    decreases |s|
  {
    if s != [] && !CommentAt(q, s[0]) {
      var q' := QuoteStep(q, s[0]);
      var r' := StripFrom(s[1..], q');
      StripFromStopsAtComment(s[1..], q');
      forall i | 0 < i <= |s|
        ensures QuotesAfter(q, s[..i]) == QuotesAfter(q', s[1..][..i - 1])
      {
        assert s[..i][0] == s[0];
        assert s[..i][1..] == s[1..][..i - 1];
      }
      assert s[..0] == [];
      forall i | 0 <= i < |r'| + 1
        ensures !CommentAt(QuotesAfter(q, s[..i]), s[i])
      {
        if i > 0 {
          assert s[i] == s[1..][i - 1];
        }
      }
    } else if s != [] {
      assert s[..0] == [];
    }
  }

  lemma StrippedStopsAtComment(s: string)
    ensures var r := Stripped(s);
      && r == s[..|r|]
      && (|r| < |s| ==> s[|r|] == '#' && QuotesAfter(Unquoted, s[..|r|]) == Unquoted)
      && (forall i :: 0 <= i < |r| && s[i] == '#' ==>
            QuotesAfter(Unquoted, s[..i]).inSingle || QuotesAfter(Unquoted, s[..i]).inDouble)
  {
    StripFromStopsAtComment(s, Unquoted);
  }

  /** Starting outside quotes, the scan is never inside both kinds of quotes at once. */
  lemma {:induction false} QuotesNeverBoth(q: Quotes, s: string)
    requires !(q.inSingle && q.inDouble)
    ensures !(QuotesAfter(q, s).inSingle && QuotesAfter(q, s).inDouble)
    decreases |s|
  {
    if s != [] {
      QuotesNeverBoth(QuoteStep(q, s[0]), s[1..]);
    }
  }

  /** `strip_comments`: copies characters, tracking quotes, until a `#` outside quotes. */
  method StripComments(input: string) returns (out: string)
    ensures out == Stripped(input)
  {
    out := [];
    var inSingle, inDouble := false, false;
    var i := 0;
    while i < |input|
      invariant 0 <= i <= |input|
      invariant out + StripFrom(input[i..], Quotes(inSingle, inDouble)) == Stripped(input)
    {
      var c := input[i];
      assert input[i..][1..] == input[i + 1..];
      ghost var rest := StripFrom(input[i + 1..], QuoteStep(Quotes(inSingle, inDouble), c));
      if c == '\'' && !inDouble {
        assert out + ([c] + rest) == (out + [c]) + rest;
        inSingle := !inSingle;
        out := out + [c];
        i := i + 1;
        continue;
      }
      if c == '"' && !inSingle {
        assert out + ([c] + rest) == (out + [c]) + rest;
        inDouble := !inDouble;
        out := out + [c];
        i := i + 1;
        continue;
      }
      if c == '#' && !inSingle && !inDouble {
        assert out + [] == out;
        return;
      }
      assert out + ([c] + rest) == (out + [c]) + rest;
      out := out + [c];
      i := i + 1;
    }
    assert out + [] == out;
  }

  // ---------------------------------------------------------------------------------
  // is_importable_alias

  /** `is_importable_alias`: a concrete name, not a pattern or a negation. */
  function IsImportableAlias(alias: string): (r: bool)
    ensures r <==> alias != [] && forall i :: 0 <= i < |alias| ==> alias[i] != '*' && alias[i] != '?' && alias[i] != '!'
  {
    if alias == [] || alias[0] == '!' then false
    else '*' !in alias && '?' !in alias && '!' !in alias
  }

  /** The aliases a `Host` line declares: its importable patterns, in order. */
  function ImportableAliases(patterns: seq<string>): (r: seq<string>)
    ensures |r| <= |patterns|
    ensures forall i :: 0 <= i < |r| ==> IsImportableAlias(r[i])
    ensures forall i :: 0 <= i < |r| ==> r[i] in patterns
  {
    if patterns == [] then []
    else
      var init, last := patterns[..|patterns| - 1], patterns[|patterns| - 1];
      assert patterns == init + [last];
      ImportableAliases(init) + (if IsImportableAlias(last) then [last] else [])
  }

  /** Each importable pattern is kept as many times as the line gives it, and no other pattern is. */
  lemma {:induction false} ImportableAliasesCount(patterns: seq<string>, a: string)
    ensures multiset(ImportableAliases(patterns))[a] == if IsImportableAlias(a) then multiset(patterns)[a] else 0
  {
    if patterns != [] {
      var init, last := patterns[..|patterns| - 1], patterns[|patterns| - 1];
      assert patterns == init + [last];
      ImportableAliasesCount(init, a);
    }
  }

  /** The aliases keep the order of the patterns: those of a line split in two are those of each part. */
  lemma {:induction false} ImportableAliasesAppend(a: seq<string>, b: seq<string>)
    ensures ImportableAliases(a + b) == ImportableAliases(a) + ImportableAliases(b)
  {
    if b == [] {
      assert a + b == a;
    } else {
      var init, last := b[..|b| - 1], b[|b| - 1];
      assert (a + b)[..|a + b| - 1] == a + init;
      ImportableAliasesAppend(a, init);
    }
  }

  /** A single pattern is kept exactly when it is importable. */
  lemma ImportableAliasesOne(a: string)
    ensures ImportableAliases([a]) == if IsImportableAlias(a) then [a] else []
  {
    assert [a][..0] == [];
  }

  // ---------------------------------------------------------------------------------
  // parse_config_file

  /** The options collected for the current block. */
  datatype HostOptions = HostOptions(
    hostname: Option<string>,
    user: Option<string>,
    port: Option<U16>,
    identityFile: Option<string>,
    proxyJump: Option<string>
  )

  const NoOptions := HostOptions(None, None, None, None, None)

  /** One importable host, as offered to the user. */
  datatype Candidate = Candidate(
    alias: string,
    hostname: string,
    user: string,
    port: U16,
    identityFile: Option<string>,
    proxyJump: Option<string>,
    sourcePath: string
  )

  /**
   * The candidate `flush_current` makes of one alias: the block's options, the hostname
   * falling back to the alias when it is missing or blank, no user as `""`, no port as 22.
   */
  function CandidateOf(alias: string, opts: HostOptions, path: string): (r: Candidate)
    ensures r.alias == alias && r.sourcePath == path
    ensures opts.hostname.None? || IsBlank(opts.hostname.value) ==> r.hostname == alias
    ensures opts.hostname.Some? && !IsBlank(opts.hostname.value) ==> r.hostname == opts.hostname.value
    ensures r.user == (if opts.user.Some? then opts.user.value else "")
    ensures r.port == (if opts.port.Some? then opts.port.value else DefaultPort)
    ensures r.identityFile == opts.identityFile && r.proxyJump == opts.proxyJump
  {
    var hostname := if opts.hostname.Some? && !IsBlank(opts.hostname.value) then opts.hostname.value else alias;
    Candidate(alias, hostname, opts.user.GetOr([]), opts.port.GetOr(DefaultPort),
              opts.identityFile, opts.proxyJump, path)
  }

  /** The aliases that are not blank, in order. */
  function NonBlank(aliases: seq<string>): (r: seq<string>)
    ensures |r| <= |aliases|
    ensures forall i :: 0 <= i < |r| ==> !IsBlank(r[i])
    ensures forall i :: 0 <= i < |r| ==> r[i] in aliases
  {
    if aliases == [] then []
    else
      var init, last := aliases[..|aliases| - 1], aliases[|aliases| - 1];
      assert aliases == init + [last];
      NonBlank(init) + (if IsBlank(last) then [] else [last])
  }

  /** Each alias that is not blank is kept as many times as the block gives it, and no blank one is. */
  lemma {:induction false} NonBlankCount(aliases: seq<string>, a: string)
    ensures multiset(NonBlank(aliases))[a] == if IsBlank(a) then 0 else multiset(aliases)[a]
  {
    if aliases != [] {
      var init, last := aliases[..|aliases| - 1], aliases[|aliases| - 1];
      assert aliases == init + [last];
      NonBlankCount(init, a);
    }
  }

  /** The kept aliases are in the block's order. */
  lemma {:induction false} NonBlankAppend(a: seq<string>, b: seq<string>)
    ensures NonBlank(a + b) == NonBlank(a) + NonBlank(b)
  {
    if b == [] {
      assert a + b == a;
    } else {
      var init, last := b[..|b| - 1], b[|b| - 1];
      assert (a + b)[..|a + b| - 1] == a + init;
      NonBlankAppend(a, init);
    }
  }

  /** Aliases none of which is blank are all kept. */
  lemma {:induction false} NonBlankKeepsAll(aliases: seq<string>)
    requires forall i :: 0 <= i < |aliases| ==> !IsBlank(aliases[i])
    ensures NonBlank(aliases) == aliases
  {
    if aliases != [] {
      var init, last := aliases[..|aliases| - 1], aliases[|aliases| - 1];
      assert forall i :: 0 <= i < |init| ==> init[i] == aliases[i];
      NonBlankKeepsAll(init);
      assert aliases == init + [last];
    }
  }

  /** The importable aliases of a `Host` line's words are never blank, so the flush skips none of them. */
  lemma HostAliasesNonBlank(rest: string)
    ensures var ps := ImportableAliases(SplitWhitespace(rest));
      forall i :: 0 <= i < |ps| ==> !IsBlank(ps[i])
  {
    var words := SplitWhitespace(rest);
    var ps := ImportableAliases(words);
    forall i | 0 <= i < |ps|
      ensures !IsBlank(ps[i])
    {
      var j :| 0 <= j < |words| && words[j] == ps[i];
      assert IsToken(words[j]);
      assert !IsWhitespace(ps[i][0]);
    }
  }

  /** The candidates of a block: one per alias that is not blank, all sharing the options. */
  function CandidatesOf(aliases: seq<string>, opts: HostOptions, path: string): seq<Candidate> {
    if aliases == [] then []
    else
      var init, last := aliases[..|aliases| - 1], aliases[|aliases| - 1];
      CandidatesOf(init, opts, path) + (if IsBlank(last) then [] else [CandidateOf(last, opts, path)])
  }

  /** A block yields, in order, the candidate of each of its aliases that is not blank. */
  lemma {:induction false} CandidatesOfNonBlank(aliases: seq<string>, opts: HostOptions, path: string)
    ensures var r := CandidatesOf(aliases, opts, path);
      && |r| == |NonBlank(aliases)|
      && forall i :: 0 <= i < |r| ==> r[i] == CandidateOf(NonBlank(aliases)[i], opts, path)
  {
    if aliases != [] {
      var init, last := aliases[..|aliases| - 1], aliases[|aliases| - 1];
      CandidatesOfNonBlank(init, opts, path);
    }
  }

  /** The parser's state: the candidates so far, the current block's aliases and options. */
  datatype ParseState = ParseState(out: seq<Candidate>, aliases: seq<string>, options: HostOptions)

  const Start := ParseState([], [], NoOptions)

  /** `flush_current`: emit the current block, then start with no aliases and no options. */
  function Flush(st: ParseState, path: string): ParseState {
    if st.aliases == [] then st
    else ParseState(st.out + CandidatesOf(st.aliases, st.options, path), [], NoOptions)
  }

  /** The keywords the parser acts on; every other keyword is ignored. */
  datatype Key = HostKey | MatchKey | HostNameKey | UserKey | PortKey | IdentityFileKey | ProxyJumpKey | OtherKey

  /** The keyword a line's first word names, ignoring ASCII case. */
  function KeyOf(word: string): Key {
    if EqIgnoreAsciiCase(word, "Host") then HostKey
    else if EqIgnoreAsciiCase(word, "Match") then MatchKey
    else if EqIgnoreAsciiCase(word, "HostName") then HostNameKey
    else if EqIgnoreAsciiCase(word, "User") then UserKey
    else if EqIgnoreAsciiCase(word, "Port") then PortKey
    else if EqIgnoreAsciiCase(word, "IdentityFile") then IdentityFileKey
    else if EqIgnoreAsciiCase(word, "ProxyJump") then ProxyJumpKey
    else OtherKey
  }

  /** Setting one option from a non-empty value; a `Port` that is not a `u16` changes nothing. */
  function SetOption(opts: HostOptions, key: Key, value: string): HostOptions {
    match key
    case HostNameKey => opts.(hostname := Some(value))
    case UserKey => opts.(user := Some(value))
    case PortKey =>
      var port := ParseUnsigned(value, U16Max);
      if port.Some? then opts.(port := Some(port.value)) else opts
    case IdentityFileKey => opts.(identityFile := Some(value))
    case ProxyJumpKey => opts.(proxyJump := Some(value))
    case _ => opts
  }

  /** A line that is not empty after comments and whitespace: its first word and the rest. */
  datatype Directive = Directive(key: string, rest: string)

  /** The directive of a raw line, or none for a line that is empty once its comment is gone. */
  function LineDirective(raw: string): Option<Directive> {
    var line := Trim(Stripped(raw));
    if line == [] then None
    else
      var parts := SplitWhitespace(line);
      if parts == [] then None
      else Some(Directive(parts[0], Join(parts[1..], " ")))
  }

  /**
   * One iteration of the line loop: `Host` flushes and starts a block with its
   * importable aliases, `Match` flushes, and any other keyword with a non-empty
   * value sets an option, but only inside a block.
   */
  function Apply(st: ParseState, d: Option<Directive>, path: string): ParseState {
    if d.None? then st
    else
      var key, rest := KeyOf(d.value.key), d.value.rest;
      if key == HostKey then Flush(st, path).(aliases := ImportableAliases(SplitWhitespace(rest)))
      else if key == MatchKey then Flush(st, path)
      else if st.aliases == [] then st
      else if Trim(rest) == [] then st
      else st.(options := SetOption(st.options, key, Trim(rest)))
  }

  function Step(st: ParseState, raw: string, path: string): ParseState {
    Apply(st, LineDirective(raw), path)
  }

  /** The state after the loop has read the lines. */
  function Run(st: ParseState, lines: seq<string>, path: string): ParseState {
    if lines == [] then st
    else Step(Run(st, lines[..|lines| - 1], path), lines[|lines| - 1], path)
  }

  /** What `parse_config_file` returns for a file's content once it has been read. */
  function ParsedCandidates(content: string, path: string): seq<Candidate> {
    Flush(Run(Start, Lines(content), path), path).out
  }

  /**
   * What the loop keeps true: without a current block the options are empty, the current
   * aliases are importable, and every candidate so far has an importable alias and the file's path.
   */
  predicate Consistent(st: ParseState, path: string) {
    && (st.aliases == [] ==> st.options == NoOptions)
    && (forall i :: 0 <= i < |st.aliases| ==> IsImportableAlias(st.aliases[i]))
    && (forall i :: 0 <= i < |st.out| ==> IsImportableAlias(st.out[i].alias) && st.out[i].sourcePath == path)
  }

  lemma FlushKeepsConsistent(st: ParseState, path: string)
    requires Consistent(st, path)
    ensures Consistent(Flush(st, path), path)
    ensures Flush(st, path).aliases == [] && Flush(st, path).options == NoOptions
  {
    if st.aliases != [] {
      var block := CandidatesOf(st.aliases, st.options, path);
      CandidatesOfNonBlank(st.aliases, st.options, path);
      forall i | 0 <= i < |block|
        ensures IsImportableAlias(block[i].alias) && block[i].sourcePath == path
      {
        assert NonBlank(st.aliases)[i] in st.aliases;
      }
      var out := st.out + block;
      forall i | 0 <= i < |out|
        ensures IsImportableAlias(out[i].alias) && out[i].sourcePath == path
      {
        if i >= |st.out| {
          assert out[i] == block[i - |st.out|];
        }
      }
    }
  }

  lemma ApplyKeepsConsistent(st: ParseState, d: Option<Directive>, path: string)
    requires Consistent(st, path)
    ensures Consistent(Apply(st, d, path), path)
  {
    if d.Some? {
      var key := KeyOf(d.value.key);
      if key == HostKey || key == MatchKey {
        FlushKeepsConsistent(st, path);
      }
    }
  }

  lemma {:induction false} RunKeepsConsistent(st: ParseState, lines: seq<string>, path: string)
    requires Consistent(st, path)
    ensures Consistent(Run(st, lines, path), path)
  {
    if lines != [] {
      RunKeepsConsistent(st, lines[..|lines| - 1], path);
      ApplyKeepsConsistent(Run(st, lines[..|lines| - 1], path), LineDirective(lines[|lines| - 1]), path);
    }
  }

  /** Every candidate of a file has an importable alias and names the file it came from. */
  lemma ParsedCandidatesImportable(content: string, path: string)
    ensures var r := ParsedCandidates(content, path);
      forall i :: 0 <= i < |r| ==> IsImportableAlias(r[i].alias) && r[i].sourcePath == path
  {
    RunKeepsConsistent(Start, Lines(content), path);
    FlushKeepsConsistent(Run(Start, Lines(content), path), path);
  }

  /** A line whose keyword is neither `Host` nor `Match`. */
  predicate IsOptionLine(raw: string) {
    var d := LineDirective(raw);
    d.None? || (KeyOf(d.value.key) != HostKey && KeyOf(d.value.key) != MatchKey)
  }

  /**
   * Option lines outside a block (before the first `Host`, or after a `Match` or a
   * `Host` line without importable aliases) change nothing.
   */
  lemma {:induction false} OptionsOutsideBlockIgnored(st: ParseState, lines: seq<string>, path: string)
    requires st.aliases == []
    requires forall i :: 0 <= i < |lines| ==> IsOptionLine(lines[i])
    ensures Run(st, lines, path) == st
  {
    if lines != [] {
      OptionsOutsideBlockIgnored(st, lines[..|lines| - 1], path);
    }
  }

  /** A `Match` line ends the block: its candidates are emitted and the options are reset. */
  lemma MatchEndsBlock(st: ParseState, d: Option<Directive>, path: string)
    requires Consistent(st, path)
    requires d.Some? && KeyOf(d.value.key) == MatchKey
    ensures Apply(st, d, path) == ParseState(st.out + CandidatesOf(st.aliases, st.options, path), [], NoOptions)
  {
    assert CandidatesOf([], st.options, path) == [];
  }

  /**
   * A `Host` line ends the current block the same way and opens a block with its
   * importable aliases and no options.
   */
  lemma HostStartsBlock(st: ParseState, d: Option<Directive>, path: string)
    requires Consistent(st, path)
    requires d.Some? && KeyOf(d.value.key) == HostKey
    ensures Apply(st, d, path)
      == ParseState(st.out + CandidatesOf(st.aliases, st.options, path),
                    ImportableAliases(SplitWhitespace(d.value.rest)), NoOptions)
  {
    assert CandidatesOf([], st.options, path) == [];
  }

  /** Option lines change the current block's options only: the candidates and the aliases stay. */
  lemma {:induction false} OptionLinesKeepBlock(st: ParseState, lines: seq<string>, path: string)
    requires forall i :: 0 <= i < |lines| ==> IsOptionLine(lines[i])
    ensures Run(st, lines, path).out == st.out && Run(st, lines, path).aliases == st.aliases
  {
    if lines != [] {
      OptionLinesKeepBlock(st, lines[..|lines| - 1], path);
    }
  }

  /** Flushing a block none of whose aliases is blank appends one candidate per alias, in order. */
  lemma FlushYieldsEachAlias(block: ParseState, path: string)
    requires forall i :: 0 <= i < |block.aliases| ==> !IsBlank(block.aliases[i])
    ensures var out := Flush(block, path).out;
      && |out| == |block.out| + |block.aliases|
      && out[..|block.out|] == block.out
      && forall i :: 0 <= i < |block.aliases| ==> out[|block.out| + i] == CandidateOf(block.aliases[i], block.options, path)
  {
    if block.aliases != [] {
      CandidatesOfNonBlank(block.aliases, block.options, path);
      NonBlankKeepsAll(block.aliases);
    }
  }

  /**
   * A `Host` line, the option lines after it and the flush that ends its block add one
   * candidate per importable pattern of the line, in the line's order, each with the
   * options those lines set; `b` is the state right after the `Host` line.
   */
  lemma HostBlockYieldsEachAlias(st: ParseState, d: Option<Directive>, b: ParseState, lines: seq<string>, path: string)
    requires d.Some? && KeyOf(d.value.key) == HostKey && b == Apply(st, d, path)
    requires forall i :: 0 <= i < |lines| ==> IsOptionLine(lines[i])
    ensures b.out == Flush(st, path).out
    ensures b.aliases == ImportableAliases(SplitWhitespace(d.value.rest))
    ensures var block := Run(b, lines, path);
      var out := Flush(block, path).out;
      && |out| == |b.out| + |b.aliases|
      && out[..|b.out|] == b.out
      && forall i :: 0 <= i < |b.aliases| ==> out[|b.out| + i] == CandidateOf(b.aliases[i], block.options, path)
  {
    HostOpensBlock(st, d, path);
    HostAliasesNonBlank(d.value.rest);
    BlockThenFlush(b, lines, path);
  }

  lemma HostOpensBlock(st: ParseState, d: Option<Directive>, path: string)
    requires d.Some? && KeyOf(d.value.key) == HostKey
    ensures Apply(st, d, path).out == Flush(st, path).out
    ensures Apply(st, d, path).aliases == ImportableAliases(SplitWhitespace(d.value.rest))
  {
  }

  /** A block of non-blank aliases, option lines, then the flush: one candidate per alias. */
  lemma BlockThenFlush(b: ParseState, lines: seq<string>, path: string)
    requires forall i :: 0 <= i < |b.aliases| ==> !IsBlank(b.aliases[i])
    requires forall i :: 0 <= i < |lines| ==> IsOptionLine(lines[i])
    ensures var block := Run(b, lines, path);
      var out := Flush(block, path).out;
      && |out| == |b.out| + |b.aliases|
      && out[..|b.out|] == b.out
      && forall i :: 0 <= i < |b.aliases| ==> out[|b.out| + i] == CandidateOf(b.aliases[i], block.options, path)
  {
    OptionLinesKeepBlock(b, lines, path);
    FlushYieldsEachAlias(Run(b, lines, path), path);
  }

  /** Keywords are recognised whatever their ASCII case. */
  lemma KeyOfIgnoresCase(a: string, b: string)
    requires Lower(a) == Lower(b)
    ensures KeyOf(a) == KeyOf(b)
  {
    EqIgnoreAsciiCaseLower(a, b, "Host");
    EqIgnoreAsciiCaseLower(a, b, "Match");
    EqIgnoreAsciiCaseLower(a, b, "HostName");
    EqIgnoreAsciiCaseLower(a, b, "User");
    EqIgnoreAsciiCaseLower(a, b, "Port");
    EqIgnoreAsciiCaseLower(a, b, "IdentityFile");
    EqIgnoreAsciiCaseLower(a, b, "ProxyJump");
  }

  /**
   * Inside a block, a second line with the same keyword (in any case) and a non-empty
   * value overrides the first; when the keyword is `Port`, only if the value is a `u16`.
   */
  lemma RepeatedOptionLastWins(st: ParseState, first: string, second: string, v1: string, v2: string, path: string)
    requires st.aliases != []
    requires Lower(first) == Lower(second)
    requires KeyOf(first) != HostKey && KeyOf(first) != MatchKey
    requires Trim(v2) != []
    requires KeyOf(first) == PortKey ==> ParseUnsigned(Trim(v2), U16Max).Some?
    ensures Apply(Apply(st, Some(Directive(first, v1)), path), Some(Directive(second, v2)), path)
         == Apply(st, Some(Directive(second, v2)), path)
  {
    KeyOfIgnoresCase(first, second);
  }

  /** A `Port` value that is not a `u16` leaves the options as they were. */
  lemma BadPortIgnored(st: ParseState, key: string, value: string, path: string)
    requires KeyOf(key) == PortKey && ParseUnsigned(Trim(value), U16Max).None?
    ensures Apply(st, Some(Directive(key, value)), path) == st
  {
  }

  /** One iteration of `flush_current`'s loop, as a step of `CandidatesOf`. */
  lemma CandidatesOfStep(out: seq<Candidate>, acc: seq<Candidate>, aliases: seq<string>, i: nat, opts: HostOptions, path: string)
    requires i < |aliases|
    requires acc == out + CandidatesOf(aliases[..i], opts, path)
    ensures IsBlank(aliases[i]) ==> acc == out + CandidatesOf(aliases[..i + 1], opts, path)
    ensures !IsBlank(aliases[i]) ==> acc + [CandidateOf(aliases[i], opts, path)] == out + CandidatesOf(aliases[..i + 1], opts, path)
  {
    assert aliases[..i + 1][..i] == aliases[..i];
  }

  /** `flush_current`, over the parser's three variables. */
  method FlushCurrent(out: seq<Candidate>, aliases: seq<string>, options: HostOptions, path: string)
    returns (out': seq<Candidate>, aliases': seq<string>, options': HostOptions)
    ensures ParseState(out', aliases', options') == Flush(ParseState(out, aliases, options), path)
  {
    if aliases == [] {
      return out, aliases, options;
    }
    out' := out;
    for i := 0 to |aliases|
      invariant out' == out + CandidatesOf(aliases[..i], options, path)
    {
      var alias := aliases[i];
      CandidatesOfStep(out, out', aliases, i, options, path);
      if IsBlank(alias) {
        continue;
      }
      var hostname := if options.hostname.Some? && !IsBlank(options.hostname.value)
        then options.hostname.value else alias;
      out' := out' + [Candidate(alias, hostname, options.user.GetOr([]), options.port.GetOr(DefaultPort),
                                options.identityFile, options.proxyJump, path)];
    }
    assert aliases[..|aliases|] == aliases;
    aliases', options' := [], NoOptions;
  }

  /** The loop's view of a line: its directive, read off the trimmed and split text. */
  lemma DirectiveOfLine(raw: string, line: string)
    requires line == Trim(Stripped(raw))
    ensures line == [] ==> LineDirective(raw) == None
    ensures line != [] && SplitWhitespace(line) == [] ==> LineDirective(raw) == None
    ensures line != [] && SplitWhitespace(line) != [] ==>
      LineDirective(raw) == Some(Directive(SplitWhitespace(line)[0], Join(SplitWhitespace(line)[1..], " ")))
  {
  }

  /** The state after one more line is one `Step` from the state before it. */
  lemma RunStep(lines: seq<string>, i: nat, path: string)
    requires i < |lines|
    ensures Run(Start, lines[..i + 1], path) == Step(Run(Start, lines[..i], path), lines[i], path)
  {
    assert lines[..i + 1][..i] == lines[..i];
  }

  /** The option arm of the line loop, for a keyword other than `Host` and `Match`. */
  method SetCurrentOption(options: HostOptions, key: Key, value: string) returns (options': HostOptions)
    ensures options' == SetOption(options, key, value)
  {
    options' := options;
    match key
    case HostNameKey => options' := options.(hostname := Some(value));
    case UserKey => options' := options.(user := Some(value));
    case PortKey =>
      var port := ParseUnsigned(value, U16Max);
      if port.Some? {
        options' := options.(port := Some(port.value));
      }
    case IdentityFileKey => options' := options.(identityFile := Some(value));
    case ProxyJumpKey => options' := options.(proxyJump := Some(value));
    case _ =>
  }

  /** `parse_config_file` for the file's content, once it has been read. */
  method ParseConfigFile(content: string, path: string) returns (out: seq<Candidate>)
    ensures out == ParsedCandidates(content, path)
  {
    var lines := Lines(content);
    out := [];
    var aliases: seq<string> := [];
    var options := NoOptions;
    for i := 0 to |lines|
      invariant ParseState(out, aliases, options) == Run(Start, lines[..i], path)
    {
      RunStep(lines, i, path);
      var line := StripComments(lines[i]);
      line := Trim(line);
      DirectiveOfLine(lines[i], line);
      if line == [] {
        continue;
      }
      var parts := SplitWhitespace(line);
      if parts == [] {
        continue;
      }
      var key := KeyOf(parts[0]);
      var rest := Join(parts[1..], " ");
      if key == HostKey {
        out, aliases, options := FlushCurrent(out, aliases, options, path);
        aliases := ImportableAliases(SplitWhitespace(rest));
        continue;
      }
      if key == MatchKey {
        out, aliases, options := FlushCurrent(out, aliases, options, path);
        continue;
      }
      if aliases == [] {
        continue;
      }
      var value := Trim(rest);
      if value == [] {
        continue;
      }
      options := SetCurrentOption(options, key, value);
    }
    assert lines[..|lines|] == lines;
    out, aliases, options := FlushCurrent(out, aliases, options, path);
  }

  // ---------------------------------------------------------------------------------
  // ssh_config_scan_importable_hosts

  /** A discovered config file: its path and what reading it gave (its text or the error's message). */
  datatype ConfigFile = ConfigFile(path: string, content: Result<string, string>)

  /** `parse_config_file`: a file that cannot be read fails with `"<path>: <error>"`. */
  function ParseFile(f: ConfigFile): Result<seq<Candidate>, string> {
    match f.content
    case Err(e) => Err(f.path + ": " + e)
    case Ok(text) => Ok(ParsedCandidates(text, f.path))
  }

  /** The candidates of all files in order, or the error of the first file that cannot be read. */
  function AllCandidates(files: seq<ConfigFile>): Result<seq<Candidate>, string> {
    if files == [] then Ok([])
    else
      var before := AllCandidates(files[..|files| - 1]);
      var last := ParseFile(files[|files| - 1]);
      if before.Err? then before
      else if last.Err? then Err(last.error)
      else Ok(before.value + last.value)
  }

  /** The key the scan compares aliases by: the alias in lower case. */
  function AliasKey(c: Candidate): string {
    Lower(c.alias)
  }

  /** The keys of a sequence of candidates. */
  function KeysOf(cs: seq<Candidate>): set<string> {
    if cs == [] then {} else KeysOf(cs[..|cs| - 1]) + {AliasKey(cs[|cs| - 1])}
  }

  /** The candidates whose key no earlier candidate has, in order. */
  function FirstPerKey(items: seq<Candidate>): seq<Candidate> {
    if items == [] then []
    else
      var kept := FirstPerKey(items[..|items| - 1]);
      var last := items[|items| - 1];
      if AliasKey(last) in KeysOf(kept) then kept else kept + [last]
  }

  /** No two candidates share a key. */
  predicate DistinctKeys(cs: seq<Candidate>) {
    forall i, j :: 0 <= i < j < |cs| ==> AliasKey(cs[i]) != AliasKey(cs[j])
  }

  /** The candidates are in order of their keys. */
  predicate SortedByKey(cs: seq<Candidate>) {
    forall i, j :: 0 <= i < j < |cs| ==> LexLe(AliasKey(cs[i]), AliasKey(cs[j]))
  }

  /** Insert `c` before the first candidate whose key is not below its own. */
  function InsertByKey(c: Candidate, cs: seq<Candidate>): seq<Candidate> {
    if cs == [] then [c]
    else if LexLe(AliasKey(c), AliasKey(cs[0])) then [c] + cs
    else [cs[0]] + InsertByKey(c, cs[1..])
  }

  /**
   * `sort_by` on the lower-case aliases: a stable sort, written as an insertion sort
   * (each candidate goes before the later ones with the same key).
   */
  function SortByKey(cs: seq<Candidate>): seq<Candidate> {
    if cs == [] then [] else InsertByKey(cs[0], SortByKey(cs[1..]))
  }

  /** What the scan returns for the discovered files, in discovery order. */
  function ScanResult(files: seq<ConfigFile>): Result<seq<Candidate>, string> {
    var all := AllCandidates(files);
    if all.Err? then Err(all.error) else Ok(SortByKey(FirstPerKey(all.value)))
  }

  lemma KeysOfSnoc(cs: seq<Candidate>, c: Candidate)
    ensures KeysOf(cs + [c]) == KeysOf(cs) + {AliasKey(c)}
  {
    assert (cs + [c])[..|cs|] == cs;
  }

  /** A key belongs to `KeysOf(cs)` exactly when some candidate of `cs` has it. */
  lemma {:induction false} KeysOfIff(cs: seq<Candidate>)
    ensures forall k :: k in KeysOf(cs) <==> exists i :: 0 <= i < |cs| && AliasKey(cs[i]) == k
  {
    if cs != [] {
      var init := cs[..|cs| - 1];
      KeysOfIff(init);
      assert cs == init + [cs[|cs| - 1]];
      forall k | k in KeysOf(cs)
        ensures exists i :: 0 <= i < |cs| && AliasKey(cs[i]) == k
      {
        if k in KeysOf(init) {
          var i :| 0 <= i < |init| && AliasKey(init[i]) == k;
          assert AliasKey(cs[i]) == k;
        }
      }
      forall k | exists i :: 0 <= i < |cs| && AliasKey(cs[i]) == k
        ensures k in KeysOf(cs)
      {
        var i :| 0 <= i < |cs| && AliasKey(cs[i]) == k;
        if i < |init| {
          assert AliasKey(init[i]) == k;
        }
      }
    }
  }

  /** The first candidate per key has distinct keys, each of them a key of the input. */
  lemma {:induction false} FirstPerKeyDistinct(items: seq<Candidate>)
    ensures DistinctKeys(FirstPerKey(items))
    ensures KeysOf(FirstPerKey(items)) == KeysOf(items)
  {
    if items != [] {
      var init, last := items[..|items| - 1], items[|items| - 1];
      assert items == init + [last];
      FirstPerKeyDistinct(init);
      var kept := FirstPerKey(init);
      KeysOfSnoc(init, last);
      if AliasKey(last) !in KeysOf(kept) {
        KeysOfSnoc(kept, last);
        KeysOfIff(kept);
        var r := kept + [last];
        forall i, j | 0 <= i < j < |r|
          ensures AliasKey(r[i]) != AliasKey(r[j])
        {
          if j == |kept| {
            assert r[i] == kept[i];
          }
        }
      }
    }
  }

  /** Every candidate the dedup keeps comes from its input. */
  lemma {:induction false} FirstPerKeyFromInput(items: seq<Candidate>)
    ensures forall i :: 0 <= i < |FirstPerKey(items)| ==> FirstPerKey(items)[i] in items
  {
    if items != [] {
      var init, last := items[..|items| - 1], items[|items| - 1];
      assert items == init + [last];
      FirstPerKeyFromInput(init);
    }
  }

  /** A candidate whose key no earlier candidate has is kept. */
  lemma {:induction false} FirstPerKeyKeepsFirst(items: seq<Candidate>, i: nat)
    requires i < |items|
    requires forall j :: 0 <= j < i ==> AliasKey(items[j]) != AliasKey(items[i])
    ensures items[i] in FirstPerKey(items)
  {
    var init, last := items[..|items| - 1], items[|items| - 1];
    assert items == init + [last];
    var kept := FirstPerKey(init);
    if i == |init| {
      FirstPerKeyDistinct(init);
      KeysOfIff(init);
      forall j | 0 <= j < |init|
        ensures AliasKey(init[j]) != AliasKey(last)
      {
        assert init[j] == items[j];
      }
    } else {
      assert items[i] == init[i];
      forall j | 0 <= j < i
        ensures AliasKey(init[j]) != AliasKey(init[i])
      {
        assert init[j] == items[j];
      }
      FirstPerKeyKeepsFirst(init, i);
    }
  }

  /** Inserting adds `c` and keeps every other candidate. */
  lemma {:induction false} InsertByKeyPermutation(c: Candidate, cs: seq<Candidate>)
    ensures multiset(InsertByKey(c, cs)) == multiset(cs) + multiset{c}
    decreases |cs|
  {
    if cs != [] && !LexLe(AliasKey(c), AliasKey(cs[0])) {
      InsertByKeyPermutation(c, cs[1..]);
      assert cs == [cs[0]] + cs[1..];
    }
  }

  /** Every candidate after inserting `c` is `c` or one of `cs`. */
  lemma {:induction false} InsertByKeyFrom(c: Candidate, cs: seq<Candidate>)
    ensures forall x :: x in InsertByKey(c, cs) ==> x == c || x in cs
    decreases |cs|
  {
    if cs != [] && !LexLe(AliasKey(c), AliasKey(cs[0])) {
      InsertByKeyFrom(c, cs[1..]);
      assert cs == [cs[0]] + cs[1..];
    }
  }

  lemma {:induction false} InsertByKeySorted(c: Candidate, cs: seq<Candidate>)
    requires SortedByKey(cs)
    ensures SortedByKey(InsertByKey(c, cs))
    decreases |cs|
  {
    if cs != [] && !LexLe(AliasKey(c), AliasKey(cs[0])) {
      var tail := cs[1..];
      KeyOrderTail(cs);
      InsertByKeySorted(c, tail);
      InsertByKeyFrom(c, tail);
      var ins := InsertByKey(c, tail);
      var r := [cs[0]] + ins;
      LexLeTotal(AliasKey(c), AliasKey(cs[0]));
      forall j | 0 < j < |r|
        ensures LexLe(AliasKey(r[0]), AliasKey(r[j]))
      {
        if ins[j - 1] != c {
          assert ins[j - 1] in tail;
          var m :| 0 <= m < |tail| && tail[m] == ins[j - 1];
          assert cs[m + 1] == r[j];
        }
      }
    } else if cs != [] {
      var r := [c] + cs;
      forall j | 1 < j < |r|
        ensures LexLe(AliasKey(c), AliasKey(r[j]))
      {
        LexLeTransitive(AliasKey(c), AliasKey(cs[0]), AliasKey(cs[j - 1]));
      }
    }
  }

  /** `sort_by` returns the candidates in key order, as a permutation of its input. */
  lemma {:induction false} SortByKeyProperties(cs: seq<Candidate>)
    ensures SortedByKey(SortByKey(cs))
    ensures multiset(SortByKey(cs)) == multiset(cs)
  {
    if cs != [] {
      SortByKeyProperties(cs[1..]);
      InsertByKeySorted(cs[0], SortByKey(cs[1..]));
      InsertByKeyPermutation(cs[0], SortByKey(cs[1..]));
      assert cs == [cs[0]] + cs[1..];
    }
  }

  /** Inserting a candidate whose key is new keeps the keys distinct. */
  lemma {:induction false} InsertByKeyDistinct(c: Candidate, cs: seq<Candidate>)
    requires SortedByKey(cs) && DistinctKeys(cs)
    requires forall k :: 0 <= k < |cs| ==> AliasKey(cs[k]) != AliasKey(c)
    ensures DistinctKeys(InsertByKey(c, cs))
    decreases |cs|
  {
    if cs != [] && !LexLe(AliasKey(c), AliasKey(cs[0])) {
      var tail := cs[1..];
      KeyOrderTail(cs);
      InsertByKeyDistinct(c, tail);
      InsertByKeyFrom(c, tail);
      var ins := InsertByKey(c, tail);
      var r := [cs[0]] + ins;
      forall j | 0 < j < |r|
        ensures AliasKey(r[0]) != AliasKey(r[j])
      {
        if ins[j - 1] != c {
          assert ins[j - 1] in tail;
          var m :| 0 <= m < |tail| && tail[m] == ins[j - 1];
          assert cs[m + 1] == r[j];
        }
      }
    }
  }

  /** Sorting keeps the keys distinct. */
  lemma {:induction false} SortByKeyDistinct(cs: seq<Candidate>)
    requires DistinctKeys(cs)
    ensures DistinctKeys(SortByKey(cs))
  {
    if cs != [] {
      var tail := cs[1..];
      SortByKeyDistinct(tail);
      SortByKeyProperties(tail);
      var sorted := SortByKey(tail);
      forall k | 0 <= k < |sorted|
        ensures AliasKey(sorted[k]) != AliasKey(cs[0])
      {
        assert sorted[k] in multiset(tail);
        var m :| 0 <= m < |tail| && tail[m] == sorted[k];
        assert cs[m + 1] == sorted[k];
      }
      InsertByKeyDistinct(cs[0], sorted);
    }
  }

  lemma KeyOrderTail(s: seq<Candidate>)
    requires s != []
    ensures SortedByKey(s) ==> SortedByKey(s[1..])
    ensures DistinctKeys(s) ==> DistinctKeys(s[1..])
  {
    assert forall i :: 0 <= i < |s| - 1 ==> s[1..][i] == s[i + 1];
  }

  /** Two key-ordered permutations, one with distinct keys, start with the same candidate. */
  lemma SortedPermutationHead(t: seq<Candidate>, u: seq<Candidate>)
    requires SortedByKey(t) && SortedByKey(u) && DistinctKeys(t)
    requires multiset(t) == multiset(u) && t != []
    ensures u != [] && u[0] == t[0]
  {
    assert u != [] by { assert |u| == |multiset(u)| == |multiset(t)| == |t|; }
    assert t[0] in multiset(u) && u[0] in multiset(t);
    var j :| 0 <= j < |u| && u[j] == t[0];
    var i :| 0 <= i < |t| && t[i] == u[0];
    if i != 0 {
      assert LexLe(AliasKey(t[0]), AliasKey(t[i]));
      assert LexLe(AliasKey(u[0]), AliasKey(u[j]));
      LexLeAntisymmetric(AliasKey(t[0]), AliasKey(u[0]));
      assert false;
    }
  }

  /**
   * With distinct keys there is only one way to sort: any key-ordered permutation is the
   * result of `SortByKey`, so how the library sorts does not matter.
   */
  lemma {:induction false} SortedPermutationUnique(t: seq<Candidate>, u: seq<Candidate>)
    requires SortedByKey(t) && SortedByKey(u) && DistinctKeys(t)
    requires multiset(t) == multiset(u)
    ensures t == u
    decreases |t|
  {
    if t == [] {
      assert |u| == |multiset(u)| == 0;
    } else {
      SortedPermutationHead(t, u);
      assert t == [t[0]] + t[1..] && u == [u[0]] + u[1..];
      assert multiset(t) == multiset{t[0]} + multiset(t[1..]);
      assert multiset(u) == multiset{t[0]} + multiset(u[1..]);
      assert multiset(t[1..]) == multiset(t) - multiset{t[0]} == multiset(u[1..]);
      KeyOrderTail(t);
      KeyOrderTail(u);
      SortedPermutationUnique(t[1..], u[1..]);
    }
  }

  /** One more file extends the merged candidates, or ends them with that file's error. */
  lemma AllCandidatesStep(files: seq<ConfigFile>, k: nat)
    requires k < |files| && AllCandidates(files[..k]).Ok?
    ensures ParseFile(files[k]).Ok? ==>
      AllCandidates(files[..k + 1]) == Ok(AllCandidates(files[..k]).value + ParseFile(files[k]).value)
    ensures ParseFile(files[k]).Err? ==> AllCandidates(files[..k + 1]) == Err(ParseFile(files[k]).error)
  {
    assert files[..k + 1][..k] == files[..k];
  }

  /** Once a file fails, the files after it do not matter. */
  lemma {:induction false} AllCandidatesErrStays(files: seq<ConfigFile>, n: nat)
    requires n <= |files| && AllCandidates(files[..n]).Err?
    ensures AllCandidates(files) == AllCandidates(files[..n])
    decreases |files| - n
  {
    if n < |files| {
      assert files[..n + 1][..n] == files[..n];
      AllCandidatesErrStays(files, n + 1);
    } else {
      assert files[..n] == files;
    }
  }

  /** One more candidate: it is kept exactly when its key has not been seen. */
  lemma FirstPerKeyStep(done: seq<Candidate>, parsed: seq<Candidate>, j: nat)
    requires j < |parsed|
    ensures FirstPerKey(done + parsed[..j + 1])
      == var kept := FirstPerKey(done + parsed[..j]);
         if AliasKey(parsed[j]) in KeysOf(kept) then kept else kept + [parsed[j]]
  {
    assert (done + parsed[..j + 1])[..|done| + j] == done + parsed[..j];
  }

  /**
   * The scan's inner loop over one file's candidates: a candidate is kept when inserting
   * its lower-case alias into the seen set succeeds.
   */
  method KeepNewAliases(ghost done: seq<Candidate>, candidates: seq<Candidate>, seen: set<string>,
                        parsed: seq<Candidate>)
    returns (candidates': seq<Candidate>, seen': set<string>)
    requires candidates == FirstPerKey(done) && seen == KeysOf(candidates)
    ensures candidates' == FirstPerKey(done + parsed) && seen' == KeysOf(candidates')
  {
    candidates', seen' := candidates, seen;
    assert done + parsed[..0] == done;
    for j := 0 to |parsed|
      invariant candidates' == FirstPerKey(done + parsed[..j])
      invariant seen' == KeysOf(candidates')
    {
      var item := parsed[j];
      var key := Lower(item.alias);
      FirstPerKeyStep(done, parsed, j);
      if key !in seen' {
        KeysOfSnoc(candidates', item);
        seen' := seen' + {key};
        candidates' := candidates' + [item];
      }
    }
    assert parsed[..|parsed|] == parsed;
  }

  /**
   * `ssh_config_scan_importable_hosts` over the discovered files: parses them in order,
   * keeps a candidate when its lower-case alias is new to the set of seen aliases, and
   * sorts the result by lower-case alias; the first file that cannot be read ends the scan.
   */
  method ScanImportableHosts(files: seq<ConfigFile>) returns (r: Result<seq<Candidate>, string>)
    ensures r == ScanResult(files)
  {
    if |files| == 0 {
      return Ok([]);
    }
    var candidates: seq<Candidate> := [];
    var seen: set<string> := {};
    for k := 0 to |files|
      invariant AllCandidates(files[..k]).Ok?
      invariant candidates == FirstPerKey(AllCandidates(files[..k]).value)
      invariant seen == KeysOf(candidates)
    {
      AllCandidatesStep(files, k);
      var file := files[k];
      if file.content.Err? {
        AllCandidatesErrStays(files, k + 1);
        return Err(file.path + ": " + file.content.error);
      }
      var parsed := ParseConfigFile(file.content.value, file.path);
      candidates, seen := KeepNewAliases(AllCandidates(files[..k]).value, candidates, seen, parsed);
    }
    assert files[..|files|] == files;
    candidates := SortByKey(candidates);
    r := Ok(candidates);
  }

  /**
   * A successful scan returns each lower-case alias once, sorted, as a permutation of
   * the first candidates per alias; every key it holds is a key of some file's candidates.
   */
  lemma ScanSortedAndDistinct(files: seq<ConfigFile>)
    requires AllCandidates(files).Ok?
    ensures var r := ScanResult(files).value;
      && SortedByKey(r)
      && DistinctKeys(r)
      && multiset(r) == multiset(FirstPerKey(AllCandidates(files).value))
      && (forall i :: 0 <= i < |r| ==> r[i] in AllCandidates(files).value)
  {
    var kept := FirstPerKey(AllCandidates(files).value);
    FirstPerKeyDistinct(AllCandidates(files).value);
    FirstPerKeyFromInput(AllCandidates(files).value);
    SortByKeyProperties(kept);
    SortByKeyDistinct(kept);
    var r := SortByKey(kept);
    forall i | 0 <= i < |r|
      ensures r[i] in AllCandidates(files).value
    {
      assert r[i] in multiset(kept);
      var m :| 0 <= m < |kept| && kept[m] == r[i];
    }
  }

  /**
   * The first candidate with a given lower-case alias, across the files in order, is in
   * the result, and so the result has a candidate for every alias any file declares.
   */
  lemma ScanKeepsFirst(files: seq<ConfigFile>, i: nat)
    requires AllCandidates(files).Ok?
    requires var items := AllCandidates(files).value;
      i < |items| && forall j :: 0 <= j < i ==> AliasKey(items[j]) != AliasKey(items[i])
    ensures AllCandidates(files).value[i] in ScanResult(files).value
  {
    var items := AllCandidates(files).value;
    FirstPerKeyKeepsFirst(items, i);
    SortByKeyProperties(FirstPerKey(items));
    assert items[i] in multiset(FirstPerKey(items));
  }

  /** Any key-ordered permutation of the first candidates per alias is the scan's result. */
  lemma ScanSortIsUnique(files: seq<ConfigFile>, t: seq<Candidate>)
    requires AllCandidates(files).Ok?
    requires SortedByKey(t) && multiset(t) == multiset(FirstPerKey(AllCandidates(files).value))
    ensures ScanResult(files) == Ok(t)
  {
    var kept := FirstPerKey(AllCandidates(files).value);
    FirstPerKeyDistinct(AllCandidates(files).value);
    SortByKeyProperties(kept);
    SortByKeyDistinct(kept);
    SortedPermutationUnique(SortByKey(kept), t);
  }

  /** The scan fails exactly with the error of the first file that cannot be read. */
  lemma ScanFailsAtFirstUnreadable(files: seq<ConfigFile>, k: nat)
    requires k < |files| && files[k].content.Err?
    requires forall j :: 0 <= j < k ==> files[j].content.Ok?
    ensures ScanResult(files) == Err(files[k].path + ": " + files[k].content.error)
  {
    AllReadableOk(files[..k]);
    AllCandidatesStep(files, k);
    AllCandidatesErrStays(files, k + 1);
  }

  /** When every file can be read, the scan succeeds. */
  lemma {:induction false} AllReadableOk(files: seq<ConfigFile>)
    requires forall j :: 0 <= j < |files| ==> files[j].content.Ok?
    ensures AllCandidates(files).Ok? && ScanResult(files).Ok?
  {
    if files != [] {
      AllReadableOk(files[..|files| - 1]);
    }
  }
}
