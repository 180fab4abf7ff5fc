/** What the scan-options resolver promises, for any choice of foreign
    parsers and header keys unless a lemma says otherwise: field by field
    about the group that resolves the field, and about `Args.Resolve` for
    how the groups combine. */
module ArgsProperties {
  import opened Results
  import opened UnsignedParse
  import opened TextSplit
  import opened CliMatches
  import opened Args

  // ---------------------------------------------------------------------
  // Tokens

  /** Every profile is selected by its full name and by its initial. */
  lemma ProfileTokenRoundTrip(p: ProfileType)
    ensures ResolveProfile(Some(ProfileName(p))) == Ok(p)
    ensures ResolveProfile(Some(ProfileName(p)[..1])) == Ok(p)
  {
    match p
    case Default => assert ProfileName(p)[..1] == "d";
    case Fast => assert ProfileName(p)[..1] == "f";
    case Stealth => assert ProfileName(p)[..1] == "s";
    case Chaos => assert ProfileName(p)[..1] == "c";
  }

  /** Every format is selected by its name, and "text" selects the same as "plain". */
  lemma OutputTokenRoundTrip(f: OutputFormat)
    ensures ResolveOutput(Some(FormatName(f))) == Ok(f)
    ensures ResolveOutput(Some("text")) == ResolveOutput(Some("plain"))
  {
  }

  // ---------------------------------------------------------------------
  // Assembly

  /** A configuration is built only when every group resolves, under the
      resolved profile, and each of its fields is the one its group gave. */
  lemma ResolveFromGroups(m: ArgMatches, env: Environment, keys: HeaderKeys)
    ensures var r := Resolve(m, env, keys);
      r.Ok? ==> var o := r.value;
        && ResolveTargets(m, env, o.profile) == Ok(Targets(o.interfaceName, o.networkRange, o.timeoutMs, o.resolveHostname))
        && ResolveAddressing(m, env) == Ok(Addressing(o.sourceIpv4, o.destinationMac, o.sourceMac, o.vlanId))
        && ResolvePacing(m, env, o.profile) == Ok(Pacing(o.retryCount, o.intervalMs))
        && ResolvePresentation(m, o.profile) == Ok(Presentation(o.output, o.randomizeTargets, o.ouiFile))
        && ResolveArpHeader(m, keys) == Ok(ArpHeader(o.hwType, o.hwAddr, o.protoType, o.protoAddr, o.arpOperation))
  {
  }

  // ---------------------------------------------------------------------
  // Field by field, within each group

  /** An explicit timeout wins; without one the profile decides. */
  lemma TimeoutResolution(m: ArgMatches, env: Environment, profile: ProfileType)
    ensures var r := ResolveTargets(m, env, profile); var raw := ValueOf(m, "timeout");
      && (r.Ok? && raw.Some? ==> env.parseDuration(raw.value) == Some(r.value.timeoutMs))
      && (r.Ok? && raw.None? ==> r.value.timeoutMs == if profile == Fast then 800 else 2000)
      && (raw.Some? && env.parseDuration(raw.value).None? ==> r.Err?)
  {
  }

  /** Hostnames are resolved unless numeric mode is asked for or the
      profile is Stealth; no other field matters. */
  lemma ResolveHostnameRule(m: ArgMatches, env: Environment, profile: ProfileType)
    ensures var r := ResolveTargets(m, env, profile);
      r.Ok? ==> (r.value.resolveHostname <==> !IsPresent(m, "numeric") && profile != Stealth)
  {
  }

  /** The ranges resolved are those `compute_networks` gives; a bad range or
      an unreadable range file leaves no configuration. */
  lemma NetworkResolution(m: ArgMatches, env: Environment, profile: ProfileType)
    ensures var r := ResolveTargets(m, env, profile);
      && (r.Ok? ==> ComputeNetworks(m, env) == Ok(r.value.networkRange))
      && (r.Ok? ==> r.value.interfaceName == ValueOf(m, "interface"))
      && (ComputeNetworks(m, env).Err? ==> r == Err(ComputeNetworks(m, env).error))
  {
  }

  /** Inline ranges give one network per comma-separated piece, in order,
      or the range error when any piece is not a network. */
  lemma InlineRanges(m: ArgMatches, env: Environment, profile: ProfileType)
    requires ValueOf(m, "file").None? && ValueOf(m, "network").Some?
    ensures var r := ResolveTargets(m, env, profile); var pieces := Split(ValueOf(m, "network").value, ',');
      && (r.Ok? ==> r.value.networkRange.Some? && |r.value.networkRange.value| == |pieces|)
      && (r.Ok? ==> forall i :: 0 <= i < |pieces| ==> env.parseNetwork(pieces[i]) == Some(r.value.networkRange.value[i]))
      && (!RangesParse(pieces, env.parseNetwork) ==> r == Err(InvalidNetworkRange))
  {
  }

  /** A range file with one malformed line aborts, whatever the other lines hold. */
  lemma RangeFileAllOrNothing(m: ArgMatches, env: Environment, profile: ProfileType, content: string, i: nat)
    requires ValueOf(m, "file").Some? && ValueOf(m, "network").None?
    requires env.readFile(ValueOf(m, "file").value) == Some(content)
    requires i < |Lines(content)| && env.parseNetwork(Lines(content)[i]).None?
    ensures ResolveTargets(m, env, profile) == Err(InvalidNetworkRange)
  {
  }

  lemma AddressResolution(m: ArgMatches, env: Environment)
    ensures var r := ResolveAddressing(m, env);
      var ip := ValueOf(m, "source_ip"); var dst := ValueOf(m, "destination_mac"); var src := ValueOf(m, "source_mac");
      && (r.Ok? ==> r.value.sourceIpv4 == if ip.Some? then env.parseIpv4(ip.value) else None)
      && (r.Ok? ==> r.value.destinationMac == if dst.Some? then env.parseMac(dst.value) else None)
      && (r.Ok? ==> r.value.sourceMac == if src.Some? then env.parseMac(src.value) else None)
      && (ip.Some? && env.parseIpv4(ip.value).None? ==> r.Err?)
      && (dst.Some? && env.parseMac(dst.value).None? ==> r.Err?)
      && (src.Some? && env.parseMac(src.value).None? ==> r.Err?)
  {
  }

  /** The VLAN id is given exactly when its text was, as a 16-bit number;
      text that is not one fails. */
  lemma VlanResolution(m: ArgMatches, env: Environment)
    ensures var r := ResolveAddressing(m, env); var raw := ValueOf(m, "vlan");
      && (r.Ok? ==> r.value.vlanId == ParseU16Opt(raw))
      && (r.Ok? ==> (r.value.vlanId.Some? <==> raw.Some?))
      && (Rejected(raw, ParseU16) ==> r.Err?)
  {
  }

  lemma RetryResolution(m: ArgMatches, env: Environment, profile: ProfileType)
    ensures var r := ResolvePacing(m, env, profile); var raw := ValueOf(m, "retry_count");
      && (r.Ok? && raw.Some? ==> ParseUnsigned(raw.value, USIZE_MAX) == Some(r.value.retryCount))
      && (r.Ok? && raw.None? ==> r.value.retryCount == if profile == Chaos then 2 else 1)
      && (raw.Some? && ParseUnsigned(raw.value, USIZE_MAX).None? ==> r.Err?)
  {
  }

  lemma IntervalResolution(m: ArgMatches, env: Environment, profile: ProfileType)
    ensures var r := ResolvePacing(m, env, profile); var raw := ValueOf(m, "interval");
      && (r.Ok? && raw.Some? ==> env.parseDuration(raw.value) == Some(r.value.intervalMs))
      && (r.Ok? && raw.None? ==> r.value.intervalMs == match profile case Stealth => 20 case Fast => 0 case _ => 10)
      && (raw.Some? && env.parseDuration(raw.value).None? ==> r.Err?)
  {
  }

  lemma OutputResolution(m: ArgMatches, profile: ProfileType)
    ensures var r := ResolvePresentation(m, profile); var raw := ValueOf(m, "output");
      && (r.Ok? ==> ResolveOutput(raw) == Ok(r.value.output))
      && (raw.Some? && raw.value !in OutputTokens ==> r == Err(InvalidOutputFormat))
  {
  }

  /** Targets are shuffled when asked for or under Stealth or Chaos; no
      other field matters. */
  lemma RandomizeTargetsRule(m: ArgMatches, profile: ProfileType)
    ensures var r := ResolvePresentation(m, profile);
      r.Ok? ==> (r.value.randomizeTargets <==> IsPresent(m, "random") || profile in {Stealth, Chaos})
  {
  }

  lemma OuiFileResolution(m: ArgMatches, profile: ProfileType)
    ensures var r := ResolvePresentation(m, profile);
      r.Ok? ==> r.value.ouiFile == match ValueOf(m, "oui-file") case Some(f) => f case None => DEFAULT_OUI_FILE
  {
  }

  /** Each ARP header field is given exactly when text was found under its
      key, as an 8- or 16-bit number; text that is not one fails. */
  lemma HeaderResolution(m: ArgMatches, keys: HeaderKeys)
    ensures var r := ResolveArpHeader(m, keys);
      && (r.Ok? ==> r.value.hwType == ParseU16Opt(ValueOf(m, keys.hwType)))
      && (r.Ok? ==> r.value.hwAddr == ParseU8Opt(ValueOf(m, keys.hwAddr)))
      && (r.Ok? ==> r.value.protoType == ParseU16Opt(ValueOf(m, keys.protoType)))
      && (r.Ok? ==> r.value.protoAddr == ParseU8Opt(ValueOf(m, keys.protoAddr)))
      && (r.Ok? ==> r.value.arpOperation == ParseU16Opt(ValueOf(m, keys.arpOperation)))
      && (Rejected(ValueOf(m, keys.hwType), ParseU16) ==> r.Err?)
      && (Rejected(ValueOf(m, keys.hwAddr), ParseU8) ==> r.Err?)
      && (Rejected(ValueOf(m, keys.protoType), ParseU16) ==> r.Err?)
      && (Rejected(ValueOf(m, keys.protoAddr), ParseU8) ==> r.Err?)
      && (Rejected(ValueOf(m, keys.arpOperation), ParseU16) ==> r.Err?)
  {
  }

  function ParseU16Opt(raw: Option<string>): Option<uint16> {
    if raw.Some? then ParseU16(raw.value) else None
  }

  function ParseU8Opt(raw: Option<string>): Option<uint8> {
    if raw.Some? then ParseU8(raw.value) else None
  }

  // ---------------------------------------------------------------------
  // The two derived predicates

  /** Output is plain exactly when no format, "plain" or "text" was asked for. */
  lemma PlainOutputIffToken(m: ArgMatches, env: Environment, keys: HeaderKeys)
    ensures var r := Resolve(m, env, keys); var raw := ValueOf(m, "output");
      r.Ok? ==> (r.value.IsPlainOutput() <==> raw.None? || raw.value in {"plain", "text"})
  {
    ResolveFromGroups(m, env, keys);
    if Resolve(m, env, keys).Ok? {
      OutputResolution(m, Resolve(m, env, keys).value.profile);
    }
  }

  /** A VLAN tag is requested exactly when VLAN text was given. */
  lemma HasVlanIffGiven(m: ArgMatches, env: Environment, keys: HeaderKeys)
    ensures var r := Resolve(m, env, keys);
      r.Ok? ==> (r.value.HasVlan() <==> ValueOf(m, "vlan").Some?)
  {
    ResolveFromGroups(m, env, keys);
    VlanResolution(m, env);
  }

  // ---------------------------------------------------------------------
  // Fail-fast order

  /** Text was given that `parse` does not accept. */
  predicate Rejected<T>(raw: Option<string>, parse: string -> Option<T>) {
    raw.Some? && parse(raw.value).None?
  }

  function FailIf(b: bool, e: ScanError): Option<ScanError> {
    if b then Some(e) else None
  }

  /** How the network-range field fails, judged on its own. */
  ghost function NetworkFailure(m: ArgMatches, env: Environment): Option<ScanError> {
    match (ValueOf(m, "file"), ValueOf(m, "network"))
    case (Some(path), None) =>
      if env.readFile(path).None? then Some(UnreadableRangeFile(path))
      else FailIf(!RangesParse(Lines(env.readFile(path).value), env.parseNetwork), InvalidNetworkRange)
    case (None, Some(raw)) => FailIf(!RangesParse(Split(raw, ','), env.parseNetwork), InvalidNetworkRange)
    case _ => None
  }

  /** The profile field judged on its own. */
  ghost function ProfileFailures(m: ArgMatches): seq<Option<ScanError>> {
    var raw := ValueOf(m, "profile");
    [FailIf(raw.Some? && raw.value !in ProfileTokens, InvalidProfile)]
  }

  /** The target fields judged on their own, in source order. */
  ghost function TargetsFailures(m: ArgMatches, env: Environment): seq<Option<ScanError>> {
    [ NetworkFailure(m, env),
      FailIf(Rejected(ValueOf(m, "timeout"), env.parseDuration), InvalidTimeout) ]
  }

  /** The addressing fields judged on their own, in source order. */
  ghost function AddressingFailures(m: ArgMatches, env: Environment): seq<Option<ScanError>> {
    [ FailIf(Rejected(ValueOf(m, "source_ip"), env.parseIpv4), InvalidSourceIp),
      FailIf(Rejected(ValueOf(m, "destination_mac"), env.parseMac), InvalidDestinationMac),
      FailIf(Rejected(ValueOf(m, "source_mac"), env.parseMac), InvalidSourceMac),
      FailIf(Rejected(ValueOf(m, "vlan"), ParseU16), InvalidVlan) ]
  }

  /** The pacing fields judged on their own, in source order. */
  ghost function PacingFailures(m: ArgMatches, env: Environment): seq<Option<ScanError>> {
    [ FailIf(Rejected(ValueOf(m, "retry_count"), ParseUsize), InvalidRetryCount),
      FailIf(Rejected(ValueOf(m, "interval"), env.parseDuration), InvalidInterval) ]
  }

  /** The output format judged on its own. */
  ghost function PresentationFailures(m: ArgMatches): seq<Option<ScanError>> {
    var raw := ValueOf(m, "output");
    [FailIf(raw.Some? && raw.value !in OutputTokens, InvalidOutputFormat)]
  }

  /** The ARP header fields judged on their own, in source order. */
  ghost function ArpHeaderFailures(m: ArgMatches, keys: HeaderKeys): seq<Option<ScanError>> {
    [ FailIf(Rejected(ValueOf(m, keys.hwType), ParseU16), InvalidHwType),
      FailIf(Rejected(ValueOf(m, keys.hwAddr), ParseU8), InvalidHwAddr),
      FailIf(Rejected(ValueOf(m, keys.protoType), ParseU16), InvalidProtoType),
      FailIf(Rejected(ValueOf(m, keys.protoAddr), ParseU8), InvalidProtoAddr),
      FailIf(Rejected(ValueOf(m, keys.arpOperation), ParseU16), InvalidArpOperation) ]
  }

  /** All fifteen fallible fields judged on their own, in the order
      `ScanOptions::new` resolves them. */
  ghost function FieldFailures(m: ArgMatches, env: Environment, keys: HeaderKeys): seq<Option<ScanError>> {
    ProfileFailures(m) + TargetsFailures(m, env) + AddressingFailures(m, env)
      + PacingFailures(m, env) + PresentationFailures(m) + ArpHeaderFailures(m, keys)
  }

  function FirstFailure(failures: seq<Option<ScanError>>): Option<ScanError>
    decreases |failures|
  {
    if failures == [] then None
    else if failures[0].Some? then failures[0]
    else FirstFailure(failures[1..])
  }

  /** The first failure is that of the earliest field that fails. */
  lemma {:induction false} FirstFailureAt(failures: seq<Option<ScanError>>, k: nat)
    requires k < |failures| && failures[k].Some?
    requires forall j :: 0 <= j < k ==> failures[j].None?
    ensures FirstFailure(failures) == failures[k]
    decreases k
  {
    if k > 0 {
      FirstFailureAt(failures[1..], k - 1);
    }
  }

  /** When no field fails there is no first failure. */
  lemma {:induction false} NoFirstFailure(failures: seq<Option<ScanError>>)
    requires forall j :: 0 <= j < |failures| ==> failures[j].None?
    ensures FirstFailure(failures) == None
    decreases |failures|
  {
    if failures != [] {
      NoFirstFailure(failures[1..]);
    }
  }

  lemma FirstFailureCons(failures: seq<Option<ScanError>>)
    requires failures != []
    ensures FirstFailure(failures) == if failures[0].Some? then failures[0] else FirstFailure(failures[1..])
  {
  }

  /** The first failure of a list of groups is that of the first group that fails. */
  lemma {:induction false} FirstFailureAppend(a: seq<Option<ScanError>>, b: seq<Option<ScanError>>)
    ensures FirstFailure(a + b) == if FirstFailure(a).Some? then FirstFailure(a) else FirstFailure(b)
    decreases |a|
  {
    if a == [] {
      assert a + b == b;
    } else {
      assert (a + b)[1..] == a[1..] + b;
      FirstFailureAppend(a[1..], b);
    }
  }

  /** `r` fails exactly when one of `failures` is a failure, and then with the first. */
  ghost predicate FailsAsFirst<T>(r: Result<T, ScanError>, failures: seq<Option<ScanError>>) {
    && (r.Err? <==> FirstFailure(failures).Some?)
    && (r.Err? ==> FirstFailure(failures) == Some(r.error))
  }

  lemma ProfileFailsAsFirst(m: ArgMatches)
    ensures FailsAsFirst(ResolveProfile(ValueOf(m, "profile")), ProfileFailures(m))
  {
  }

  /** `compute_networks` fails exactly as the network field judged on its own. */
  lemma NetworkFailureMatches(m: ArgMatches, env: Environment)
    ensures ComputeNetworks(m, env).Err? <==> NetworkFailure(m, env).Some?
    ensures ComputeNetworks(m, env).Err? ==> NetworkFailure(m, env) == Some(ComputeNetworks(m, env).error)
  {
  }

  lemma TargetsFailAsFirst(m: ArgMatches, env: Environment, profile: ProfileType)
    ensures FailsAsFirst(ResolveTargets(m, env, profile), TargetsFailures(m, env))
  {
    var fs := TargetsFailures(m, env);
    NetworkFailureMatches(m, env);
    FirstFailureCons(fs);
    FirstFailureCons(fs[1..]);
    assert fs[1..][1..] == [];
  }

  lemma AddressingFailsAsFirst(m: ArgMatches, env: Environment)
    ensures FailsAsFirst(ResolveAddressing(m, env), AddressingFailures(m, env))
  {
    var fs := AddressingFailures(m, env);
    FirstFailureCons(fs);
    FirstFailureCons(fs[1..]);
    FirstFailureCons(fs[1..][1..]);
    FirstFailureCons(fs[1..][1..][1..]);
    assert fs[1..][1..][1..][1..] == [];
  }

  lemma PacingFailsAsFirst(m: ArgMatches, env: Environment, profile: ProfileType)
    ensures FailsAsFirst(ResolvePacing(m, env, profile), PacingFailures(m, env))
  {
    var fs := PacingFailures(m, env);
    FirstFailureCons(fs);
    FirstFailureCons(fs[1..]);
    assert fs[1..][1..] == [];
  }

  lemma PresentationFailsAsFirst(m: ArgMatches, profile: ProfileType)
    ensures FailsAsFirst(ResolvePresentation(m, profile), PresentationFailures(m))
  {
  }

  lemma ArpHeaderFailsAsFirst(m: ArgMatches, keys: HeaderKeys)
    ensures FailsAsFirst(ResolveArpHeader(m, keys), ArpHeaderFailures(m, keys))
  {
    var fs := ArpHeaderFailures(m, keys);
    FirstFailureCons(fs);
    FirstFailureCons(fs[1..]);
    FirstFailureCons(fs[1..][1..]);
    FirstFailureCons(fs[1..][1..][1..]);
    FirstFailureCons(fs[1..][1..][1..][1..]);
    assert fs[1..][1..][1..][1..][1..] == [];
  }

  /** Resolution fails exactly when some field fails on its own, and then
      with the error of the first such field in source order: no later field
      can mask an earlier failure, and no configuration is partly built. */
  lemma ResolveStopsAtFirstFailure(m: ArgMatches, env: Environment, keys: HeaderKeys)
    ensures var r := Resolve(m, env, keys); var first := FirstFailure(FieldFailures(m, env, keys));
      && (r.Err? <==> first.Some?)
      && (r.Err? ==> first == Some(r.error))
  {
    var pr := ResolveProfile(ValueOf(m, "profile"));
    var p := if pr.Ok? then pr.value else Default;
    ProfileFailsAsFirst(m);
    TargetsFailAsFirst(m, env, p);
    AddressingFailsAsFirst(m, env);
    PacingFailsAsFirst(m, env, p);
    PresentationFailsAsFirst(m, p);
    ArpHeaderFailsAsFirst(m, keys);
    var f1 := ProfileFailures(m);
    var f2 := f1 + TargetsFailures(m, env);
    var f3 := f2 + AddressingFailures(m, env);
    var f4 := f3 + PacingFailures(m, env);
    var f5 := f4 + PresentationFailures(m);
    FirstFailureAppend(f1, TargetsFailures(m, env));
    FirstFailureAppend(f2, AddressingFailures(m, env));
    FirstFailureAppend(f3, PacingFailures(m, env));
    FirstFailureAppend(f4, PresentationFailures(m));
    FirstFailureAppend(f5, ArpHeaderFailures(m, keys));
  }

  // ---------------------------------------------------------------------
  // End to end

  /** `--profile fast` alone: 800 ms timeout, no interval, one retry,
      hostnames resolved, targets in order. */
  lemma FastProfileScenario(env: Environment, keys: HeaderKeys)
    requires keys == RegisteredHeaderKeys || keys == SourceHeaderKeys
    ensures Resolve(ArgMatches(map["profile" := "fast"], {}), env, keys) ==
      Ok(ScanOptions(Fast, None, None, 800, true, None, None, None, None, 1, 0, false,
                     Plain, "/usr/share/arp-scan/ieee-oui.csv", None, None, None, None, None))
  {
  }

  /** `--profile s` (Stealth by its initial) alone: 2000 ms timeout, 20 ms interval, one retry,
      no hostname resolution, targets shuffled. */
  lemma StealthProfileScenario(env: Environment, keys: HeaderKeys)
    requires keys == RegisteredHeaderKeys || keys == SourceHeaderKeys
    ensures Resolve(ArgMatches(map["profile" := "s"], {}), env, keys) ==
      Ok(ScanOptions(Stealth, None, None, 2000, false, None, None, None, None, 1, 20, true,
                     Plain, "/usr/share/arp-scan/ieee-oui.csv", None, None, None, None, None))
  {
  }

  // ---------------------------------------------------------------------
  // The ARP header keys

  /** Two command lines, read with their own header keys, on which every
      lookup the resolver makes gives the same answer. */
  ghost predicate SameLookups(m1: ArgMatches, keys1: HeaderKeys, m2: ArgMatches, keys2: HeaderKeys) {
    && ValueOf(m1, "profile") == ValueOf(m2, "profile")
    && ValueOf(m1, "interface") == ValueOf(m2, "interface")
    && ValueOf(m1, "file") == ValueOf(m2, "file")
    && ValueOf(m1, "network") == ValueOf(m2, "network")
    && ValueOf(m1, "timeout") == ValueOf(m2, "timeout")
    && IsPresent(m1, "numeric") == IsPresent(m2, "numeric")
    && ValueOf(m1, "source_ip") == ValueOf(m2, "source_ip")
    && ValueOf(m1, "destination_mac") == ValueOf(m2, "destination_mac")
    && ValueOf(m1, "source_mac") == ValueOf(m2, "source_mac")
    && ValueOf(m1, "vlan") == ValueOf(m2, "vlan")
    && ValueOf(m1, "retry_count") == ValueOf(m2, "retry_count")
    && ValueOf(m1, "interval") == ValueOf(m2, "interval")
    && ValueOf(m1, "output") == ValueOf(m2, "output")
    && IsPresent(m1, "random") == IsPresent(m2, "random")
    && ValueOf(m1, "oui-file") == ValueOf(m2, "oui-file")
    && ValueOf(m1, keys1.hwType) == ValueOf(m2, keys2.hwType)
    && ValueOf(m1, keys1.hwAddr) == ValueOf(m2, keys2.hwAddr)
    && ValueOf(m1, keys1.protoType) == ValueOf(m2, keys2.protoType)
    && ValueOf(m1, keys1.protoAddr) == ValueOf(m2, keys2.protoAddr)
    && ValueOf(m1, keys1.arpOperation) == ValueOf(m2, keys2.arpOperation)
  }

  /** The resolver reads the command line through these lookups and nothing else. */
  lemma ResolveCongruence(m1: ArgMatches, keys1: HeaderKeys, m2: ArgMatches, keys2: HeaderKeys, env: Environment)
    requires SameLookups(m1, keys1, m2, keys2)
    ensures Resolve(m1, env, keys1) == Resolve(m2, env, keys2)
  {
    var pr := ResolveProfile(ValueOf(m1, "profile"));
    GroupCongruence(m1, keys1, m2, keys2, env, if pr.Ok? then pr.value else Default);
  }

  /** Each group reads the command line through these lookups only. */
  lemma GroupCongruence(m1: ArgMatches, keys1: HeaderKeys, m2: ArgMatches, keys2: HeaderKeys, env: Environment, p: ProfileType)
    requires SameLookups(m1, keys1, m2, keys2)
    ensures ResolveTargets(m1, env, p) == ResolveTargets(m2, env, p)
    ensures ResolveAddressing(m1, env) == ResolveAddressing(m2, env)
    ensures ResolvePacing(m1, env, p) == ResolvePacing(m2, env, p)
    ensures ResolvePresentation(m1, p) == ResolvePresentation(m2, p)
    ensures ResolveArpHeader(m1, keys1) == ResolveArpHeader(m2, keys2)
  {
    assert ComputeNetworks(m1, env) == ComputeNetworks(m2, env);
  }

  /** The command line with every ARP header argument taken out. */
  function WithoutHeaderFlags(m: ArgMatches): ArgMatches {
    ArgMatches(m.values - {"hw_type", "hw_addr", "proto_type", "proto_addr", "arp_operation"}, m.flags)
  }

  lemma SourceHeaderKeysUnregistered(m: ArgMatches)
    requires Producible(m)
    ensures ValueOf(m, SourceHeaderKeys.hwType) == None && ValueOf(m, SourceHeaderKeys.hwAddr) == None
    ensures ValueOf(m, SourceHeaderKeys.protoType) == None && ValueOf(m, SourceHeaderKeys.protoAddr) == None
    ensures ValueOf(m, SourceHeaderKeys.arpOperation) == None
  {
  }

  lemma WithoutHeaderFlagsKeepsTheRest(m: ArgMatches)
    ensures SameLookups(m, SourceHeaderKeys, WithoutHeaderFlags(m), SourceHeaderKeys)
    ensures ValueOf(WithoutHeaderFlags(m), RegisteredHeaderKeys.hwType) == None
    ensures ValueOf(WithoutHeaderFlags(m), RegisteredHeaderKeys.hwAddr) == None
    ensures ValueOf(WithoutHeaderFlags(m), RegisteredHeaderKeys.protoType) == None
    ensures ValueOf(WithoutHeaderFlags(m), RegisteredHeaderKeys.protoAddr) == None
    ensures ValueOf(WithoutHeaderFlags(m), RegisteredHeaderKeys.arpOperation) == None
  {
  }

  /** As written, the header fields are looked up under names that no
      argument is registered under: on every command line the parser can
      produce, the outcome is exactly that of the same command line without
      any header argument, so the five fields always come out absent. */
  lemma HeaderFlagsIgnoredAsWritten(m: ArgMatches, env: Environment)
    requires Producible(m)
    ensures NewAsWritten(m, env) == New(WithoutHeaderFlags(m), env)
    ensures var r := NewAsWritten(m, env);
      && (r.Ok? ==> r.value.hwType == None && r.value.hwAddr == None && r.value.protoType == None)
      && (r.Ok? ==> r.value.protoAddr == None && r.value.arpOperation == None)
  {
    SourceHeaderKeysUnregistered(m);
    WithoutHeaderFlagsKeepsTheRest(m);
    ResolveCongruence(m, SourceHeaderKeys, WithoutHeaderFlags(m), RegisteredHeaderKeys, env);
    ResolveFromGroups(m, env, SourceHeaderKeys);
    HeaderResolution(m, SourceHeaderKeys);
  }

  /** `--hw-type 5`: the source as written drops it, the registered key keeps it. */
  lemma HwTypeDroppedExample(env: Environment)
    ensures var m := ArgMatches(map["hw_type" := "5"], {});
      && Producible(m)
      && NewAsWritten(m, env).Ok? && NewAsWritten(m, env).value.hwType == None
      && New(m, env).Ok? && New(m, env).value.hwType == Some(5)
  {
    var m := ArgMatches(map["hw_type" := "5"], {});
    assert ToDecimal(5) == "5";
    ParseDecimalRoundTrip(5, U16_MAX);
    HeaderFlagsIgnoredAsWritten(m, env);
    ResolveFromGroups(m, env, RegisteredHeaderKeys);
    HeaderResolution(m, RegisteredHeaderKeys);
  }

  /** Read under their registered names, the header fields are given exactly
      when their text is, as 16- or 8-bit numbers, and text that is not one
      fails the run. */
  lemma HeaderFlagsHonoured(m: ArgMatches, env: Environment)
    ensures var r := New(m, env);
      && (r.Ok? ==> (r.value.hwType.Some? <==> "hw_type" in m.values))
      && (r.Ok? && "hw_type" in m.values ==> r.value.hwType == ParseU16(m.values["hw_type"]))
      && (r.Ok? ==> (r.value.hwAddr.Some? <==> "hw_addr" in m.values))
      && (r.Ok? && "hw_addr" in m.values ==> r.value.hwAddr == ParseU8(m.values["hw_addr"]))
      && (r.Ok? ==> (r.value.protoType.Some? <==> "proto_type" in m.values))
      && (r.Ok? && "proto_type" in m.values ==> r.value.protoType == ParseU16(m.values["proto_type"]))
      && (r.Ok? ==> (r.value.protoAddr.Some? <==> "proto_addr" in m.values))
      && (r.Ok? && "proto_addr" in m.values ==> r.value.protoAddr == ParseU8(m.values["proto_addr"]))
      && (r.Ok? ==> (r.value.arpOperation.Some? <==> "arp_operation" in m.values))
      && (r.Ok? && "arp_operation" in m.values ==> r.value.arpOperation == ParseU16(m.values["arp_operation"]))
      && ("hw_type" in m.values && ParseU16(m.values["hw_type"]).None? ==> r.Err?)
  {
    ResolveFromGroups(m, env, RegisteredHeaderKeys);
    HeaderResolution(m, RegisteredHeaderKeys);
  }
}
