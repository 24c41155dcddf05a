# xTermius backend: config import, config generation, probe arguments, WebDAV URLs

This project models, in Dafny, the text-handling core of the xTermius desktop
SSH client's Rust backend (`src-tauri/src`), and proves properties of the model.

- **Host record** (`models.dfy`): a saved SSH host, with id, alias, hostname,
  user, port (a 16-bit value, 22 by default), optional identity file, optional
  jump host and a soft-delete flag.
- **OpenSSH config import** (`ssh_import.dfy`). Each discovered config file is
  read line by line:
  - comments that start with `#` outside quotes are removed;
  - `Host` starts a block and `Match` ends it;
  - `HostName`, `User`, `Port`, `IdentityFile` and `ProxyJump` fill in the
    current block, and the last occurrence of a keyword wins;
  - each literal alias of the block, meaning one without `*`, `?` or `!`,
    becomes an import candidate.

  Candidates from all files are then de-duplicated by lowercase alias, keeping
  the first seen, and sorted by lowercase alias. An unreadable file aborts the
  scan with `path: error`.
- **OpenSSH config generation** (`ssh_config.dfy`): the non-deleted hosts are
  written, in order, as `Host` blocks. Each block has `HostName`, then optional
  `User`, `Port`, `IdentityFile`/`IdentitiesOnly` and `ProxyJump` lines, then
  `ServerAliveInterval 30` and a blank line.
- **Host probe** (`host_probe.dfy`). This covers:
  - POSIX single-quote shell quoting;
  - the normalisers for the probe's `key=value` output (`maybe_text`,
    `parse_u32`, `parse_u64`);
  - parsing that output into a map plus the `proc=` lines;
  - the `user@hostname` target;
  - the exact `ssh` argument vector of a probe: base options, then `-p`, `-i`,
    `-J`, then the batch/password options, then the target and the remote
    `sh -lc` script.
- **WebDAV URL resolution** (`webdav_url.dfy`): a configured WebDAV URL is
  resolved to the URL of the synced database file. Three cases are handled:
  - a URL whose last segment already is the target file name is kept;
  - a URL whose last segment looks like a database file (`.db`, `.json`,
    `.sqlite`) or is empty has that segment replaced by the target file name;
  - any other URL gets the file name appended;
  - with a sub-folder, a URL that looks like a file resolves as above, ignoring
    the folder; any other gets the folder and then the file name pushed.

  URL parsing is a parameter, and path mutation follows the `url` crate's
  `path_segments_mut` semantics.
- **Supporting modules.**
  - `strings.dfy`: the parts of Rust's `str` API the code uses (`trim`,
    `split_whitespace`, `lines`, `split_once`, `strip_prefix`, ASCII lowercase,
    decimal `to_string`/`parse`, lexicographic order).
  - `wrappers.dfy`: `Option` and `Result`.

Each loop of the source is a `method` whose `ensures` ties its result to a
specification function. The properties of those functions are proved as
lemmas.

## Model

| member | source | states |
|---|---|---|
| SshImport.QuoteStep | src-tauri/src/ssh_import.rs:213-222 | a quote character toggles its own quote state only when the other kind of quote is not open; every other character leaves the state unchanged; one quote kind is never open inside the other |
| SshImport.QuotesNeverBoth | src-tauri/src/ssh_import.rs:210-222 | while a line is scanned, single and double quotes are never both open |
| SshImport.StripFrom | src-tauri/src/ssh_import.rs:207-230 | the comment-stripped text is a prefix of the input |
| SshImport.StripFromStopsAtComment | src-tauri/src/ssh_import.rs:212-227 | stripping stops exactly at a `#` outside all quotes; no character kept is such a `#` |
| SshImport.StrippedStopsAtComment | src-tauri/src/ssh_import.rs:207-230 | the output is a prefix of the input; when it is shorter, the next character is a `#` outside quotes; every `#` it keeps is inside quotes |
| SshImport.StripComments | src-tauri/src/ssh_import.rs:207-230 | the character loop with two quote flags computes exactly the comment-stripped line |
| SshImport.IsImportableAlias | src-tauri/src/ssh_import.rs:232-237 | an alias is importable if and only if it is non-empty and contains none of `*`, `?`, `!` |
| SshImport.ImportableAliases | src-tauri/src/ssh_import.rs:165-169 | the aliases kept from a `Host` line are importable and all come from that line |
| SshImport.ImportableAliasesCount | src-tauri/src/ssh_import.rs:165-169 | every importable pattern is kept exactly as often as the line holds it, and no other pattern is kept |
| SshImport.ImportableAliasesAppend | src-tauri/src/ssh_import.rs:165-169 | the filter keeps the line's order: the aliases of two runs of patterns are those of the first, then those of the second |
| SshImport.ImportableAliasesOne | src-tauri/src/ssh_import.rs:167 | a single pattern is kept iff it is importable |
| SshImport.NonBlank | src-tauri/src/ssh_import.rs:126-129 | blank aliases are skipped and the rest come from the block |
| SshImport.NonBlankCount | src-tauri/src/ssh_import.rs:126-129 | every non-blank alias is kept exactly as often as the block holds it, and no blank one is kept |
| SshImport.NonBlankAppend | src-tauri/src/ssh_import.rs:126-129 | the skipping keeps the block's order: the aliases of two runs are those of the first, then those of the second |
| SshImport.NonBlankKeepsAll | src-tauri/src/ssh_import.rs:126-129 | when no alias is blank, all of them are kept |
| SshImport.HostAliasesNonBlank | src-tauri/src/ssh_import.rs:165-169 | an alias taken from a `Host` line's words is never blank, so the flush skips none of them |
| SshImport.CandidateOf | src-tauri/src/ssh_import.rs:130-143 | a candidate has the alias and file path; the hostname is the trimmed `HostName` if non-blank, otherwise the alias; the user defaults to empty, the port to 22; identity file and jump host are copied |
| SshImport.CandidatesOfNonBlank | src-tauri/src/ssh_import.rs:122-144 | flushing a block yields one candidate per non-blank alias, in order, from the block's options |
| SshImport.FlushKeepsConsistent | src-tauri/src/ssh_import.rs:122-147 | flushing empties the current aliases and options and keeps every candidate alias importable |
| SshImport.ApplyKeepsConsistent | src-tauri/src/ssh_import.rs:149-201 | one line of input keeps the parse state consistent (importable aliases, options only inside a block) |
| SshImport.RunKeepsConsistent | src-tauri/src/ssh_import.rs:149-201 | any number of lines keep the parse state consistent |
| SshImport.ParsedCandidatesImportable | src-tauri/src/ssh_import.rs:114-205 | every candidate parsed from a file has an importable alias and that file's path |
| SshImport.OptionsOutsideBlockIgnored | src-tauri/src/ssh_import.rs:179-181 | an option line before any `Host` (or after a `Match`) changes nothing |
| SshImport.MatchEndsBlock | src-tauri/src/ssh_import.rs:174-177 | a `Match` line flushes the current block and leaves no block open |
| SshImport.OptionLinesKeepBlock | src-tauri/src/ssh_import.rs:179-200 | option lines change only the current options: the candidates so far and the current aliases stay |
| SshImport.FlushYieldsEachAlias | src-tauri/src/ssh_import.rs:122-147 | flushing a block with no blank alias appends exactly one candidate per alias, in order |
| SshImport.BlockThenFlush | src-tauri/src/ssh_import.rs:122-147 | a block of non-blank aliases, any option lines, then the flush: one candidate per alias, in order, with the options those lines set |
| SshImport.HostOpensBlock | src-tauri/src/ssh_import.rs:163-171 | a `Host` line flushes the block before it and makes the line's importable patterns the current aliases |
| SshImport.HostBlockYieldsEachAlias | src-tauri/src/ssh_import.rs:122-200 | a `Host` line, its option lines and the flush that ends the block add exactly one candidate per importable pattern of the line, in the line's order, after the earlier candidates |
| SshImport.HostStartsBlock | src-tauri/src/ssh_import.rs:163-172 | a `Host` line flushes the previous block and opens one whose aliases are the importable patterns of the line, with no options |
| SshImport.KeyOfIgnoresCase | src-tauri/src/ssh_import.rs:163-192 | keywords are recognised case-insensitively |
| SshImport.RepeatedOptionLastWins | src-tauri/src/ssh_import.rs:188-200 | setting the same keyword twice in a block gives the state that the second setting alone gives |
| SshImport.BadPortIgnored | src-tauri/src/ssh_import.rs:192-195 | a `Port` value that is not a 16-bit decimal leaves the state unchanged |
| SshImport.DirectiveOfLine | src-tauri/src/ssh_import.rs:150-161 | an empty stripped line has no directive; otherwise the keyword is the first whitespace token and the value is the remaining tokens joined by single spaces |
| SshImport.FlushCurrent | src-tauri/src/ssh_import.rs:122-147 | the flushing method appends exactly the block's candidates and resets the block |
| SshImport.SetCurrentOption | src-tauri/src/ssh_import.rs:188-200 | the option-setting method produces the state the parse function specifies |
| SshImport.ParseConfigFile | src-tauri/src/ssh_import.rs:114-205 | the line loop with its final flush returns exactly the candidates the specification function gives for the file text |
| SshImport.AllCandidatesStep | src-tauri/src/ssh_import.rs:37-38 | files are parsed in discovery order; a readable file appends its candidates and an unreadable one turns the scan into its error |
| SshImport.AllCandidatesErrStays | src-tauri/src/ssh_import.rs:37-38 | once a file fails, later files do not change the result |
| SshImport.KeysOfIff | src-tauri/src/ssh_import.rs:35-43 | the seen-set holds exactly the lowercase aliases of the kept candidates |
| SshImport.FirstPerKeyDistinct | src-tauri/src/ssh_import.rs:37-45 | after de-duplication no two candidates share a lowercase alias, and every lowercase alias of the input is still present |
| SshImport.FirstPerKeyFromInput | src-tauri/src/ssh_import.rs:37-45 | every kept candidate is one of the input candidates |
| SshImport.FirstPerKeyKeepsFirst | src-tauri/src/ssh_import.rs:37-45 | for each lowercase alias the kept candidate is its first occurrence in the input |
| SshImport.FirstPerKeyStep | src-tauri/src/ssh_import.rs:39-44 | a candidate whose lowercase alias is new is appended; otherwise nothing changes |
| SshImport.KeepNewAliases | src-tauri/src/ssh_import.rs:39-44 | the loop over one file's candidates keeps the first candidate per lowercase alias across everything seen so far |
| SshImport.InsertByKeyPermutation | src-tauri/src/ssh_import.rs:47 | inserting into the sorted list keeps the multiset of candidates |
| SshImport.InsertByKeySorted | src-tauri/src/ssh_import.rs:47 | inserting into a list sorted by lowercase alias keeps it sorted |
| SshImport.SortByKeyProperties | src-tauri/src/ssh_import.rs:47 | sorting gives a permutation of the input that is sorted by lowercase alias |
| SshImport.SortByKeyDistinct | src-tauri/src/ssh_import.rs:47 | sorting keeps lowercase aliases distinct |
| SshImport.SortedPermutationUnique | src-tauri/src/ssh_import.rs:47 | two sorted permutations of one list with distinct keys are equal, so the result does not depend on the sorting algorithm |
| SshImport.ScanImportableHosts | src-tauri/src/ssh_import.rs:27-49 | the scan method returns exactly the specified result: empty when there are no files, else de-duplicated and sorted candidates, or the first read error |
| SshImport.ScanSortedAndDistinct | src-tauri/src/ssh_import.rs:37-48 | a successful scan is sorted by lowercase alias, has distinct lowercase aliases, is a permutation of the de-duplicated candidates, and holds only parsed candidates |
| SshImport.ScanKeepsFirst | src-tauri/src/ssh_import.rs:37-45 | each candidate in a successful scan is the first one parsed with its lowercase alias |
| SshImport.ScanSortIsUnique | src-tauri/src/ssh_import.rs:47 | any sorted permutation of the de-duplicated candidates equals the scan result |
| SshImport.ScanFailsAtFirstUnreadable | src-tauri/src/ssh_import.rs:115 | when the first unreadable file is at position k, the scan fails with that file's `path: error` |
| SshImport.AllReadableOk | src-tauri/src/ssh_import.rs:37-48 | when every file is readable, the scan succeeds |
| SshConfig.BlockLinesParts | src-tauri/src/ssh_config.rs:21-42 | a block is the header, `HostName`, the optional `User`/`Port`/`IdentityFile`/`IdentitiesOnly`/`ProxyJump` lines in that order, `ServerAliveInterval`, then a blank line |
| SshConfig.ValuesOfBlockLines | src-tauri/src/ssh_config.rs:26-42 | the values written for each keyword are those of the block's parts |
| SshConfig.BlockLinesShape | src-tauri/src/ssh_config.rs:26-42 | a block starts with `Host <alias>` and `HostName`, ends with `ServerAliveInterval 30` and a blank line, and has no other `Host` line |
| SshConfig.BlockLinesSettings | src-tauri/src/ssh_config.rs:21-42 | the alias falls back to the hostname when blank; `User` appears iff the user is non-empty; `Port` iff the port is not 22; `IdentityFile` and `IdentitiesOnly yes` appear together iff there is an identity file; `ProxyJump` iff a jump host is set |
| SshConfig.HostBlockNonEmpty | src-tauri/src/ssh_config.rs:26 | every written block is non-empty |
| SshConfig.WriteHostBlock | src-tauri/src/ssh_config.rs:21-42 | the block-writing method appends exactly the host's block to the config text |
| SshConfig.LiveHosts | src-tauri/src/ssh_config.rs:17-20 | no host kept is deleted, and there are no more of them than hosts |
| SshConfig.LiveHostsCount | src-tauri/src/ssh_config.rs:17-20 | every non-deleted host is kept exactly as often as it occurs, and no deleted one is kept |
| SshConfig.LiveHostsAppend | src-tauri/src/ssh_config.rs:17-20 | the kept hosts stay in their order: those of two runs of hosts are those of the first, then those of the second |
| SshConfig.LiveHostsOne | src-tauri/src/ssh_config.rs:18-20 | a single host is kept iff it is not deleted |
| SshConfig.LiveBlocksOfLiveHosts | src-tauri/src/ssh_config.rs:17-20 | skipping deleted hosts while writing equals writing the non-deleted hosts |
| SshConfig.LiveBlocksAppend | src-tauri/src/ssh_config.rs:16-43 | writing the blocks of the non-deleted hosts distributes over concatenation of host lists |
| SshConfig.LiveBlocksEmptyIff | src-tauri/src/ssh_config.rs:17-20 | no blocks are written iff every host is deleted |
| SshConfig.ConfigTextStep | src-tauri/src/ssh_config.rs:17-43 | each host appends its block if not deleted, and nothing otherwise |
| SshConfig.GenerateSshConfig | src-tauri/src/ssh_config.rs:14-47 | the generating loop returns exactly the specified config text |
| SshConfig.ConfigTextIsBlocksOfLiveHosts | src-tauri/src/ssh_config.rs:16-43 | the config text is the concatenation of the blocks of the non-deleted hosts, in order |
| SshConfig.ConfigTextAppend | src-tauri/src/ssh_config.rs:16-43 | generation distributes over concatenation of host lists |
| SshConfig.ConfigTextEmptyIff | src-tauri/src/ssh_config.rs:16-43 | the config text is empty iff every host is deleted |
| HostProbe.UnquoteEscaped | src-tauri/src/host_probe.rs:54-56 | the escaped text, read inside single quotes up to the closing quote, yields the original text |
| HostProbe.ShellQuoteRoundTrip | src-tauri/src/host_probe.rs:54-56 | a quoted word starts and ends with `'`, has length `2 + n + 3q` for `q` embedded quotes, and a POSIX shell reads it back as the original text |
| HostProbe.EscapedLength | src-tauri/src/host_probe.rs:55 | each embedded `'` becomes the four characters `'\''` |
| HostProbe.MaybeText | src-tauri/src/host_probe.rs:58-62 | a value is present iff its trimmed text is non-empty and not `unknown`, and then it is the trimmed text |
| HostProbe.MaybeTextIdempotent | src-tauri/src/host_probe.rs:58-62 | normalising an already normalised value gives it back |
| HostProbe.ParseU32 | src-tauri/src/host_probe.rs:64-66 | a value parses iff it is present and, once trimmed and rid of one optional `+`, is one or more digits whose value fits in 32 bits; that value is the result |
| HostProbe.ParseU64 | src-tauri/src/host_probe.rs:68-70 | the same with 64 bits |
| HostProbe.TrimNatToString | src-tauri/src/host_probe.rs:64-70 | the decimal text of a number is unchanged by trimming |
| HostProbe.ParseRoundTrip | src-tauri/src/host_probe.rs:64-70 | the decimal text of any in-range number, with surrounding whitespace, parses back to that number |
| HostProbe.EntriesExclusive | src-tauri/src/host_probe.rs:80-90 | a line is never both a `proc=` line and a map entry |
| HostProbe.EntryMapDomain | src-tauri/src/host_probe.rs:88-90 | the map's keys are exactly the trimmed keys of the non-`proc=` lines containing `=` |
| HostProbe.EntryMapValue | src-tauri/src/host_probe.rs:88-90 | each key maps to the trimmed value of its last line |
| HostProbe.KvMapLastWins | src-tauri/src/host_probe.rs:88-90 | a later line with the same key overrides an earlier one |
| HostProbe.ProcLinesAppend | src-tauri/src/host_probe.rs:84-86 | the process lines of concatenated outputs are the concatenated process lines |
| HostProbe.ProcLinesOne | src-tauri/src/host_probe.rs:80-87 | a trimmed line starting with `proc=` contributes its remainder; any other line contributes nothing |
| HostProbe.KvStep | src-tauri/src/host_probe.rs:79-90 | each line adds to the map or the process lines according to its kind |
| HostProbe.ParseKv | src-tauri/src/host_probe.rs:76-93 | the parsing loop returns exactly the specified map and process lines of the output's lines |
| HostProbe.JoinedTargetTrimmed | src-tauri/src/host_probe.rs:101 | `user@hostname` built from two trimmed non-blank parts is itself trimmed |
| HostProbe.TargetOfProperties | src-tauri/src/host_probe.rs:95-103 | the target is trimmed, and it is blank iff both user and hostname are blank |
| HostProbe.NonBlankValue | src-tauri/src/host_probe.rs:156-158 | a password counts iff it is not blank |
| HostProbe.BaseArgsFlat | src-tauri/src/host_probe.rs:128-139 | the first ten arguments are the fixed base options, in order |
| HostProbe.ProbeOptionsValues | src-tauri/src/host_probe.rs:128-170 | the values each flag is given, in order: the base `-o` options, `-p` with the port when it is positive, `-i` and `-J` with their trimmed values when not blank, then the password or batch-mode `-o` options |
| HostProbe.PortFlag | src-tauri/src/host_probe.rs:141-144 | `-p` is passed, with the decimal port, iff the port is positive |
| HostProbe.IdentityFlag | src-tauri/src/host_probe.rs:145-148 | `-i` is passed, with the trimmed path, iff the identity file is non-blank |
| HostProbe.JumpFlag | src-tauri/src/host_probe.rs:149-152 | `-J` is passed, with the trimmed value, iff the jump host is non-blank |
| HostProbe.OptionFlag | src-tauri/src/host_probe.rs:128-170 | the `-o` values are the base options followed by `BatchMode=yes` without a password, or the four password-authentication options with one |
| HostProbe.ProbeArgsErr | src-tauri/src/host_probe.rs:123-126 | building the arguments fails, with `hostname is required`, iff the target is blank |
| HostProbe.ProbeArgsShape | src-tauri/src/host_probe.rs:128-175 | a successful argument vector is flag/value pairs starting with the base options, followed by the target, `sh`, `-lc` and the script |
| HostProbe.PasswordPushes | src-tauri/src/host_probe.rs:156-170 | the password branch pushes exactly the specified options |
| HostProbe.PushHostOptions | src-tauri/src/host_probe.rs:141-152 | the method pushes exactly the host's `-p`, `-i` and `-J` options |
| HostProbe.PushBatchMode | src-tauri/src/host_probe.rs:156-170 | the method pushes exactly the batch-mode or password options |
| HostProbe.BuildProbeArgs | src-tauri/src/host_probe.rs:122-175 | the argument-building method returns exactly the specified result: an error for a blank target, else the full argument vector |
| Strings.Trim | src-tauri/src/ssh_import.rs:151 | the trimmed text is no longer than the input, starts and ends with non-whitespace, and is empty iff the input is all whitespace |
| Strings.TrimIdempotent | src-tauri/src/host_probe.rs:59 | trimming twice is trimming once |
| Strings.SplitWhitespace | src-tauri/src/ssh_import.rs:156 | the tokens are non-empty and whitespace-free |
| Strings.SplitWhitespaceToken | src-tauri/src/ssh_import.rs:156 | leading whitespace is skipped and the first token is the maximal run of non-whitespace |
| Strings.StripPrefix | src-tauri/src/host_probe.rs:84 | succeeds iff the text starts with the prefix, and returns the rest |
| Strings.SplitOnce | src-tauri/src/host_probe.rs:88 | fails iff the separator is absent; otherwise splits at its first occurrence |
| Strings.Lines | src-tauri/src/ssh_import.rs:149 | no line contains a newline |
| Strings.LinesOfTerminated | src-tauri/src/ssh_import.rs:149 | joining lines that hold no newline and no trailing carriage return, each ended by a newline, and splitting again gives the lines back |
| Strings.Lower | src-tauri/src/ssh_import.rs:40 | lowercasing keeps the length and maps each character with ASCII lowercase |
| Strings.EqIgnoreAsciiCaseIff | src-tauri/src/ssh_import.rs:163 | case-insensitive equality is equality of lowercase forms |
| Strings.LexLeTotal | src-tauri/src/ssh_import.rs:47 | the string order is total |
| Strings.LexLeTransitive | src-tauri/src/ssh_import.rs:47 | the string order is transitive |
| Strings.LexLeAntisymmetric | src-tauri/src/ssh_import.rs:47 | the string order is antisymmetric |
| Strings.NatToString | src-tauri/src/host_probe.rs:143 | the decimal text is non-empty digits with no leading zero |
| Strings.NatToStringValue | src-tauri/src/host_probe.rs:143 | the decimal text denotes the number |
| Strings.ParseUnsigned | src-tauri/src/ssh_import.rs:193 | the text parses iff, after one optional leading `+`, it is one or more ASCII digits whose value is at most the type's maximum; the result is that value |
| Strings.ZerosValue | src-tauri/src/ssh_import.rs:193 | a run of `0` digits denotes zero |
| Strings.LeadingZerosValue | src-tauri/src/ssh_import.rs:193 | leading zeros do not change the value of digits |
| Strings.ParseUnsignedOfDigits | src-tauri/src/ssh_import.rs:193 | bare digits parse to their value when it fits, and fail otherwise |
| Strings.ParseUnsignedPlus | src-tauri/src/ssh_import.rs:193 | one `+` in front of digits parses as the digits do |
| Strings.ParseUnsignedPadded | src-tauri/src/ssh_import.rs:193 | leading zeros before digits parse to the digits' value when it fits, and fail otherwise |
| Strings.ParseUnsignedSignedPadded | src-tauri/src/ssh_import.rs:193 | the same with a `+` in front |
| Strings.ParseUnsignedLenient | src-tauri/src/ssh_import.rs:193 | any leading zeros before the decimal text of `n` give `n` when it fits, and an error when it overflows; so `007` gives 7 |
| Strings.ParseUnsignedLenientSigned | src-tauri/src/ssh_import.rs:193 | the same after a `+`; so `+7` gives 7 |
| Strings.ParseUnsignedRejects | src-tauri/src/ssh_import.rs:193 | any character that is not a digit, other than a leading `+`, makes the parse fail |
| Strings.ParseUnsignedOfNatToString | src-tauri/src/ssh_import.rs:193 | the decimal text of an in-range number parses back to it |
| WebDavUrl.LastSegment | src-tauri/src/webdav_url.rs:12 | the last segment contains no `/` and is a suffix of the path, preceded by `/` when shorter than it |
| WebDavUrl.LastSegmentOfPath | src-tauri/src/webdav_url.rs:12 | the last segment of a segment path is its last segment |
| WebDavUrl.SlashEndEmptyLast | src-tauri/src/webdav_url.rs:17 | a path ending in `/` has an empty last segment |
| WebDavUrl.LastSegmentPushed | src-tauri/src/webdav_url.rs:28-37 | after a plain name is pushed, the last segment is that name |
| WebDavUrl.FolderName | src-tauri/src/webdav_url.rs:50 | the folder name has no `/` at either end |
| WebDavUrl.FolderNameOfPlain | src-tauri/src/webdav_url.rs:50 | a name without `/` or surrounding whitespace is its own folder name |
| WebDavUrl.ResolveUrlBlank | src-tauri/src/webdav_url.rs:4-7 | resolution fails with `WebDAV URL not configured` iff the input is blank |
| WebDavUrl.ResolveUrlWithFolderBlank | src-tauri/src/webdav_url.rs:45-48 | the folder resolver fails with `WebDAV URL not configured` iff the input is blank |
| WebDavUrl.ResolveUrlInvalid | src-tauri/src/webdav_url.rs:9 | a parse error of the trimmed input is reported as `Invalid WebDAV URL: <error>` by both resolvers |
| WebDavUrl.ErrorsDiffer | src-tauri/src/webdav_url.rs:6 | the not-configured, cannot-modify and invalid errors are distinct |
| WebDavUrl.ResolveInErrors | src-tauri/src/webdav_url.rs:17-37 | on a parsed URL, the resolver can fail only with `Invalid WebDAV URL (cannot modify path)` |
| WebDavUrl.FolderInErrors | src-tauri/src/webdav_url.rs:61-76 | on a parsed URL, the folder resolver can fail only with `Invalid WebDAV URL (cannot modify path)` |
| WebDavUrl.ResolveUrlKeepsNamedFile | src-tauri/src/webdav_url.rs:12-15 | a URL whose last segment is already the file name is returned unchanged |
| WebDavUrl.ResolveUrlOpaque | src-tauri/src/webdav_url.rs:17-31 | a URL whose path cannot be modified is kept when its last segment is the file name and otherwise rejected with `Invalid WebDAV URL (cannot modify path)` |
| WebDavUrl.FileSegmentsOf | src-tauri/src/webdav_url.rs:17-37 | the resolved segments: the last one replaced by the file name if it is empty or looks like a file, otherwise the file name appended |
| WebDavUrl.ResolveUrlSegments | src-tauri/src/webdav_url.rs:12-37 | for a path without empty inner segments: unchanged if it ends in the file name; the last segment replaced if it is empty or looks like a `.db`/`.json`/`.sqlite` file; otherwise the file name appended |
| WebDavUrl.ResolveInEndsInFile | src-tauri/src/webdav_url.rs:12-37 | a successful resolution of a parsed URL ends in the file name |
| WebDavUrl.ResolveUrlEndsInFile | src-tauri/src/webdav_url.rs:3-38 | every successful resolution names the file as its last segment |
| WebDavUrl.WebdavResolveUrl | src-tauri/src/webdav_url.rs:3-38 | the mutating resolver returns exactly the specified result |
| WebDavUrl.ResolveUrlWithFolderFileUrl | src-tauri/src/webdav_url.rs:52-59 | a URL that already names a file is resolved exactly as without a folder |
| WebDavUrl.FolderSegmentsOf | src-tauri/src/webdav_url.rs:61-76 | the folder-resolved segments: trailing empty segment dropped, the folder pushed, then the file name pushed |
| WebDavUrl.ResolveUrlWithFolderSegments | src-tauri/src/webdav_url.rs:61-76 | for a folder-like URL: a trailing empty segment is dropped, then the folder name is added if non-empty and not `.`/`..`, then the file name |
| WebDavUrl.ResolveTrimmedWithFolder | src-tauri/src/webdav_url.rs:52-76 | after the first parse: an unparsable URL is reported as invalid, a URL already naming a file is resolved as by the plain resolver, any other gets the folder and the file pushed |
| WebDavUrl.PushFolderAndFile | src-tauri/src/webdav_url.rs:61-76 | a URL with an opaque path cannot be modified; otherwise an empty last segment is dropped, the folder is pushed when not empty, then the file, and the URL is written out |
| WebDavUrl.ResolveUrlWithFolderEndsInFile | src-tauri/src/webdav_url.rs:40-77 | every successful folder resolution names the file as its last segment |
| WebDavUrl.WebdavResolveUrlWithFolder | src-tauri/src/webdav_url.rs:40-77 | the mutating folder resolver returns exactly the specified result |
| WebDavUrl.ResolveFilePathToHostsDb | src-tauri/src/webdav_url.rs:84-88 | an input that parses as `https://dav.example.com/path/custom.json` resolves, for `hosts.db`, to `https://dav.example.com/path/hosts.db`, which contains `/path/hosts.db` as the test asks: the file-like segment is replaced |
| WebDavUrl.ResolveWithFolderUsesFolderForBaseUrls | src-tauri/src/webdav_url.rs:91-99 | an input that parses as `https://dav.example.com/dav/` with folder `xTermius` resolves to `https://dav.example.com/dav/xTermius/hosts.db` |
| WebDavUrl.ResolveWithFolderKeepsExplicitFileUrl | src-tauri/src/webdav_url.rs:102-110 | an input that parses as `https://dav.example.com/dav/current.db` with folder `ignored` resolves to `https://dav.example.com/dav/hosts.db`: the folder is ignored and the file segment is replaced |

## Left out

- Config file discovery (`discover_ssh_config_files`, `collect_conf_files`, directory walking) is filesystem I/O. The scan takes the discovered files as a list of (path, content-or-read-error) entries.
- `fs::read_to_string` and `fs::write` are I/O. File contents come in as a `Result`, and generation returns the config text instead of writing it.
- Process spawning, the askpass helper file, environment variables, timeouts and the remote shell scripts of the probe are all I/O. The stored password is a parameter, and the script is an opaque string argument.
- The probe's result assembly from the parsed map (including `parse_f64` for load and memory figures) is floating point and I/O-bound. The normalisers it uses are modelled.
- Pseudo-terminals, the WebDAV sync engine, the host store, the credential store and the Tauri command wiring are not part of this model.
- Strings.Lower: `to_lowercase` is modelled as ASCII lowercase. Unicode case mapping of non-ASCII letters is left out.
- `HashSet` and `HashMap` are modelled as a Dafny `set` and `map`. Iteration order of the map is not used by the modelled code.
- SshImport.ScanImportableHosts: the in-place `sort_by` is modelled as assigning a functional insertion sort. `SortedPermutationUnique` shows that any correct sort gives the same list, because the keys are distinct.
- WebDavUrl: `Url::parse` is a parameter (its acceptance rules are the `url` crate's), and the URL is modelled as head (scheme and authority), path and tail (query and fragment).
- WebDavUrl.WebdavResolveUrlWithFolder: re-parsing the same trimmed text is taken to give the same URL, as parsing is a function. Mutation of the `Url` in place is modelled on values.
- WebDavUrl.ResolveUrlSegments: stated only for paths with no empty inner segment (`//`), where reading the last segment from the serialized path agrees with the segment list. Percent-encoding of pushed segments is left out, so segments are stored verbatim.
- WebDavUrl.ResolveUrlEndsInFile: stated for a file name without `/` that is not `.` or `..`, which is what the callers pass.
- HostProbe.ShellQuoteRoundTrip: the reading-back function models a shell reading one word made of single-quoted and backslash-escaped parts, not full shell word splitting.
