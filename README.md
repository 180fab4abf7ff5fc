# arp-scan-rs scan options, modelled in Dafny

This project models the resolver that turns arp-scan's parsed command line
into an immutable `ScanOptions` record. That is `ScanOptions::new`,
`ScanOptions::compute_networks`, `is_plain_output` and `has_vlan` in
`src/args.rs`, together with the `OutputFormat` and `ProfileType` enums and the
record itself.

The resolver is pure apart from its exits, so the model is functional:

- **Command line.** `CliMatches.ArgMatches` maps each argument's registered
  name to its text and holds the set of flags given. `ValueOf` and
  `IsPresent` stand for clap's `value_of` and `is_present`.
  `CliMatches.Producible` describes the command lines clap can hand over:
  only registered names, and never both `file` and `network`.
- **Fail-fast.** Each `eprintln!` followed by `process::exit(1)` becomes
  an `Err` of `Args.ScanError`. There is one error kind per call site, and
  `:-` propagates it, so the first failing field in source order decides the
  outcome.
- **Groups.** `Args.Resolve` resolves the fields through five helpers, each
  covering consecutive lines of `ScanOptions::new` in source order:
  `ResolveTargets` (interface, ranges, timeout, hostname resolution),
  `ResolveAddressing` (source IPv4, MAC addresses, VLAN), `ResolvePacing`
  (retries, interval), `ResolvePresentation` (output, shuffling, OUI file)
  and `ResolveArpHeader`. Field properties are stated per group, and
  `ArgsProperties.ResolveFromGroups` lifts them to the record.
- **Foreign parsers.** Four parsers and the file read are code this model
  cannot see. They are the five fields of `Args.Environment`: `parse_to_milliseconds`,
  `Ipv4Addr::from_str`, `MacAddr::from_str`, `IpNetwork::from_str` and
  `fs::read_to_string`. Every property holds for every choice of them.
- **Integer parsing.** `str::parse::<u8/u16/usize>` is modelled as the
  standard library runs it: an optional leading `+`, then a checked
  multiply-and-add over decimal digits (`UnsignedParse.Accumulate`). It is
  proved equal to a grammar-plus-value definition and round-trips with
  `ToDecimal`. `usize` is taken to be 64 bits wide.
- **Text splitting.** `str::split(',')` is `TextSplit.Split`. `str::lines`
  is `TextSplit.Lines`: split at `'\n'`, drop one empty final piece, and
  strip one trailing `'\r'` from each line.
- **Header keys.** `Args.Resolve` takes the five keys under which the ARP
  header fields are looked up. `Args.NewAsWritten` uses the keys the code
  reads (`hw-type`, `hw-addr`, `proto-type`, `proto-addr`, `arp-op`).
  `Args.New` uses the names under which `build_args` registers those
  arguments (`hw_type`, `hw_addr`, `proto_type`, `proto_addr`,
  `arp_operation`). See Findings.

Three behaviours of the code worth knowing:

- Every line of a range file is handed to the CIDR parser, blank lines
  included. So a blank line aborts the run exactly when that parser rejects
  the empty string.
- When both range sources or neither are present, `compute_networks`
  yields no ranges (the `_ => None` arm). clap rules out the "both" case
  before the resolver runs.
- `--retry 0` is accepted, although the diagnostic asks for a "positive
  number".

## Model

| member | source | states |
|---|---|---|
| UnsignedParse.Accumulate | src/args.rs:334-340 | the checked digit accumulation succeeds exactly when every character is a decimal digit and the value they spell does not exceed the bound, and then yields that value |
| UnsignedParse.ParseUnsigned | src/args.rs:320-326 | integer parsing accepts exactly an optional `+` followed by at least one digit whose value is within the bound, and returns that value |
| UnsignedParse.ParseU8 | src/args.rs:400-406 | `parse::<u8>` accepts exactly the well-formed texts whose value is at most 255 |
| UnsignedParse.ParseU16 | src/args.rs:320-326 | `parse::<u16>` accepts exactly the well-formed texts whose value is at most 65535 |
| UnsignedParse.ParseUsize | src/args.rs:334-340 | `parse::<usize>` accepts exactly the well-formed texts whose value fits 64 bits |
| UnsignedParse.ParseDecimalRoundTrip | src/args.rs:320-326 | the decimal text of any number, with or without a `+`, parses back to that number when it is within the bound and is rejected otherwise |
| UnsignedParse.RejectsForeignCharacter | src/args.rs:334-340 | any text holding a non-digit other than a single leading `+` is rejected, so `-1` is not a retry count |
| UnsignedParse.RejectsEmptyAndBareSign | src/args.rs:320-326 | the empty text and a lone `+` or `-` are rejected |
| TextSplit.Split | src/args.rs:212 | splitting at a separator gives one more piece than there are separators, and no piece holds the separator |
| TextSplit.JoinSplit | src/args.rs:212 | joining the pieces of a split with the separator gives back the original text |
| TextSplit.SplitJoin | src/args.rs:212 | splitting a join of separator-free pieces gives back those pieces |
| TextSplit.Lines | src/args.rs:201 | no line holds a newline; `LinesOfTerminated`, `LinesOfJoined` and `LinesOfCrlf` state what the lines of LF- and CRLF-ended files are |
| TextSplit.LineCount | src/args.rs:201 | a text has as many lines as newlines, plus one when it does not end with a newline |
| TextSplit.LinesOfTerminated | src/args.rs:199-201 | the lines of a file written as newline-terminated lines without newlines or trailing carriage returns are exactly those lines |
| TextSplit.LinesOfCrlf | src/args.rs:199-201 | the lines of a file written with CRLF line endings are exactly the lines written, the carriage return of each ending stripped, when none holds a newline |
| TextSplit.LinesOfJoined | src/args.rs:199-201 | the lines of a file whose last line has no newline after it are exactly the lines written, when none holds a newline or ends with a carriage return and the last is not empty |
| Args.ResolveProfile | src/args.rs:240-255 | a profile resolves exactly when absent or one of the eight names and initials; absent gives Default; any other text is an invalid-profile error; a resolved token is its profile's name or initial |
| Args.ResolveOutput | src/args.rs:360-374 | an output format resolves exactly when absent or one of `json`, `yaml`, `plain`, `text`; absent gives Plain; any other text is an invalid-format error |
| Args.ResolveOptional | src/args.rs:275-287 | an optional field resolves exactly when absent or accepted by its parser, is present exactly when its text was, carries the parsed value, and otherwise fails with the field's own error |
| Args.ResolveOrDefault | src/args.rs:261-270 | a field with a default takes the default when absent, the parsed value when given, and fails with its own error when the text does not parse |
| Args.ParseRanges | src/args.rs:217-230 | a list of range texts parses exactly when every entry parses, giving one network per entry in order, each the parse of its entry |
| Args.ComputeNetworks | src/args.rs:192-231 | no ranges when neither or both sources are given; inline ranges are the comma-separated pieces, all or nothing; an unreadable file is an error naming its path; otherwise the file's lines, all or nothing |
| Args.ResolveTargets | src/args.rs:257-273 | the target group fails only with the error of `compute_networks` or an invalid timeout, and carries the given interface name; `TimeoutResolution`, `ResolveHostnameRule`, `NetworkResolution` and `TargetsFailAsFirst` state the rest |
| Args.ResolveAddressing | src/args.rs:275-329 | the addressing group fails only with an address or VLAN error; `AddressResolution`, `VlanResolution` and `AddressingFailsAsFirst` state the rest |
| Args.ResolvePacing | src/args.rs:331-358 | the pacing group fails only with a retry-count or interval error; `RetryResolution`, `IntervalResolution` and `PacingFailsAsFirst` state the rest |
| Args.ResolvePresentation | src/args.rs:360-381 | the presentation group resolves exactly when the output token does, and otherwise fails with an invalid-format error; `OutputResolution`, `RandomizeTargetsRule` and `OuiFileResolution` state the rest |
| Args.ResolveArpHeader | src/args.rs:383-451 | the header group fails only with one of the five header errors, and each header field is present exactly when text is found under its key; `HeaderResolution` and `ArpHeaderFailsAsFirst` state the rest |
| Args.Resolve | src/args.rs:238-474 | an invalid profile ends resolution with that error before anything else; a resolved record carries the resolved profile, the given interface name and the header fields its header group resolved |
| Args.NewAsWritten | src/args.rs:238-474 | as written, each header field of a resolved record is present exactly when a value is found under `hw-type`, `hw-addr`, `proto-type`, `proto-addr` or `arp-op`; `HeaderFlagsIgnoredAsWritten` shows that never happens |
| Args.New | src/args.rs:128-150 | corrected, each header field of a resolved record is present exactly when its argument is given under its registered name; `HeaderFlagsHonoured` adds the values |
| Args.ScanOptions.IsPlainOutput | src/args.rs:476-479 | `is_plain_output` holds exactly when the format is neither JSON nor YAML; `PlainOutputIffToken` ties it to the output token |
| Args.ScanOptions.HasVlan | src/args.rs:481-484 | `has_vlan` holds exactly when a VLAN id was resolved; `HasVlanIffGiven` ties it to the VLAN text |
| ArgsProperties.ProfileTokenRoundTrip | src/args.rs:244-247 | every profile is selected by its full name and by its initial |
| ArgsProperties.OutputTokenRoundTrip | src/args.rs:364-366 | every format is selected by its name, and `text` selects the same as `plain` |
| ArgsProperties.ResolveFromGroups | src/args.rs:238-474 | a record is built only when every group of fields resolves under the resolved profile, and each field of the record is the value its group resolved |
| ArgsProperties.TimeoutResolution | src/args.rs:261-270 | the timeout is the parsed duration when given, else 800 ms under Fast and 2000 ms otherwise; a duration that does not parse is fatal |
| ArgsProperties.ResolveHostnameRule | src/args.rs:272-273 | hostnames are resolved exactly when numeric mode is off and the profile is not Stealth |
| ArgsProperties.NetworkResolution | src/args.rs:257-259 | the interface is the given name, the ranges are those `compute_networks` gives, and a failure of `compute_networks` is a failure with the same error |
| ArgsProperties.InlineRanges | src/args.rs:211-212 | inline ranges give one network per comma-separated piece, in order, or a network-range error when any piece does not parse |
| ArgsProperties.RangeFileAllOrNothing | src/args.rs:196-230 | one malformed line in a range file aborts with a network-range error, whatever the other lines hold |
| ArgsProperties.AddressResolution | src/args.rs:275-315 | source IPv4, destination MAC and source MAC are each present exactly when given, hold the parsed address, and text that does not parse is fatal |
| ArgsProperties.VlanResolution | src/args.rs:317-329 | the VLAN id is present exactly when given and is its 16-bit value; text that is not a 16-bit unsigned number is fatal |
| ArgsProperties.RetryResolution | src/args.rs:331-346 | the retry count is the parsed unsigned number when given, else 2 under Chaos and 1 otherwise; text that is not a 64-bit unsigned number is fatal |
| ArgsProperties.IntervalResolution | src/args.rs:348-358 | the interval is the parsed duration when given, else 20 ms under Stealth, 0 under Fast and 10 ms otherwise; a duration that does not parse is fatal |
| ArgsProperties.OutputResolution | src/args.rs:360-374 | the output format is the one its token names, Plain when absent, and an unknown token is an invalid-format error |
| ArgsProperties.RandomizeTargetsRule | src/args.rs:376 | targets are shuffled exactly when `random` is given or the profile is Stealth or Chaos |
| ArgsProperties.OuiFileResolution | src/args.rs:378-381 | the OUI file is the given path, else `/usr/share/arp-scan/ieee-oui.csv` |
| ArgsProperties.HeaderResolution | src/args.rs:383-451 | each ARP header field is present exactly when text was found under its key, holds its 16-bit or 8-bit value, and text out of range is fatal |
| ArgsProperties.PlainOutputIffToken | src/args.rs:476-479 | `is_plain_output` of a resolved record holds exactly when no format was given or it was `plain` or `text` |
| ArgsProperties.HasVlanIffGiven | src/args.rs:481-484 | `has_vlan` of a resolved record holds exactly when VLAN text was given |
| ArgsProperties.FirstFailureAt | src/args.rs:240-451 | the first failure of a list of fields is that of the earliest field that fails |
| ArgsProperties.NoFirstFailure | src/args.rs:240-451 | a list in which no field fails has no first failure |
| ArgsProperties.FirstFailureAppend | src/args.rs:240-451 | the first failure of one group followed by another is the first group's, or else the second group's |
| ArgsProperties.ProfileFailsAsFirst | src/args.rs:240-255 | the profile fails exactly when its token is not one of the eight names and initials |
| ArgsProperties.NetworkFailureMatches | src/args.rs:192-231 | `compute_networks` fails exactly when the network field judged on its own fails, with the same error |
| ArgsProperties.TargetsFailAsFirst | src/args.rs:257-273 | the target group fails exactly when the ranges or the timeout fail on their own, with the error of the first of them |
| ArgsProperties.AddressingFailsAsFirst | src/args.rs:275-329 | the addressing group fails exactly when one of its four fields fails on its own, with the error of the first of them |
| ArgsProperties.PacingFailsAsFirst | src/args.rs:331-358 | the pacing group fails exactly when the retry count or the interval fails on its own, with the error of the first of them |
| ArgsProperties.PresentationFailsAsFirst | src/args.rs:360-381 | the presentation group fails exactly when the output token is unknown |
| ArgsProperties.ArpHeaderFailsAsFirst | src/args.rs:383-451 | the ARP header group fails exactly when one of its five fields fails on its own, with the error of the first of them |
| ArgsProperties.ResolveStopsAtFirstFailure | src/args.rs:240-451 | resolution fails exactly when some field fails on its own, and then with the error of the earliest one in source order |
| ArgsProperties.FastProfileScenario | src/args.rs:238-474 | `--profile fast` alone gives the whole record: 800 ms timeout, hostnames resolved, one retry, no interval, targets in order, plain output, default OUI file |
| ArgsProperties.StealthProfileScenario | src/args.rs:238-474 | `--profile s` alone gives the whole record: 2000 ms timeout, no hostname resolution, one retry, 20 ms interval, shuffled targets |
| ArgsProperties.ResolveCongruence | src/args.rs:238-474 | the resolver reads the command line only through its named lookups: equal lookups give equal results |
| ArgsProperties.GroupCongruence | src/args.rs:257-451 | each group of fields reads the command line only through its named lookups: equal lookups give equal results |
| ArgsProperties.SourceHeaderKeysUnregistered | src/args.rs:128-150 | no command line clap produces has a value under `hw-type`, `hw-addr`, `proto-type`, `proto-addr` or `arp-op` |
| ArgsProperties.HeaderFlagsIgnoredAsWritten | src/args.rs:383-451 | as written, resolving a command line gives the same as resolving it with every ARP header argument removed, so all five header fields stay absent |
| ArgsProperties.HwTypeDroppedExample | src/args.rs:383-395 | with `--hw-type 5`, the code as written leaves the hardware type absent while reading the registered name gives 5 |
| ArgsProperties.HeaderFlagsHonoured | src/args.rs:128-150 | read under their registered names, the ARP header fields are present exactly when given and hold their parsed values |

## Left out

- The clap grammar in `build_args` (short and long spellings, help text, the `file`/`network` conflict) is not modelled. The command line arrives already parsed as `ArgMatches`, and `Producible` states what clap guarantees about it.
- The grammars of `parse_to_milliseconds` (`src/time.rs`), `Ipv4Addr`, `MacAddr` and `IpNetwork` are not part of this model. They are the parameters in `Environment`.
- File input is the `readFile` parameter. Any `fs::read_to_string` error, including non-UTF-8 content, is one `UnreadableRangeFile` outcome.
- The text of each diagnostic and the exit status are not modelled. Each call site has its own error kind instead.
- The `Arc` that wraps the returned record is not modelled. The record is a plain value.
- `ArpHardwareType::new`, `EtherType::new` and `ArpOperation::new` are identity wrappers, so the header fields hold the parsed integers.
- The `list` flag is registered but the resolver never reads it.
- `usize` is taken to be 64 bits wide. On a 32-bit target, retry counts above 2^32-1 would be rejected, and the model does not capture that.
- `TextSplit.Lines` follows `str::lines` as it was before Rust 1.77, which strips one trailing `'\r'` from every line. That includes a final line with no `'\n'` after it. From 1.77 on, such a final line keeps its lone `'\r'`, and the model does not capture that.

## Findings

| source | as written | input that shows it | evidently intended | confidence | as-written member | corrected member |
|---|---|---|---|---|---|---|
| src/args.rs:383-451 | the ARP header fields are read under `hw-type`, `hw-addr`, `proto-type`, `proto-addr` and `arp-op`, but `build_args` registers them as `hw_type`, `hw_addr`, `proto_type`, `proto_addr` and `arp_operation`, so `value_of` never finds them | `arp-scan --hw-type 5` resolves with no hardware type; `--hw-addr 999` is not even rejected | read each header field under its registered name, so the given value is used and out-of-range text is fatal | high, not executed | ArgsProperties.HeaderFlagsIgnoredAsWritten | ArgsProperties.HeaderFlagsHonoured |
