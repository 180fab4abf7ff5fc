/** The scan-options resolver: from the parsed command line to one immutable
    `ScanOptions` record, or the error of the first field that cannot be
    resolved. */
module Args {
  import opened Results
  import opened UnsignedParse
  import opened TextSplit
  import opened CliMatches

  const TIMEOUT_MS_FAST: uint64 := 800
  const TIMEOUT_MS_DEFAULT: uint64 := 2000
  const HOST_RETRY_DEFAULT: uint64 := 1
  const REQUEST_MS_INTERVAL: uint64 := 10
  const DEFAULT_OUI_FILE: string := "/usr/share/arp-scan/ieee-oui.csv"

  datatype OutputFormat = Plain | Json | Yaml

  datatype ProfileType = Default | Fast | Stealth | Chaos

  datatype Ipv4Addr = Ipv4Addr(a: uint8, b: uint8, c: uint8, d: uint8)

  datatype MacAddr = MacAddr(a: uint8, b: uint8, c: uint8, d: uint8, e: uint8, f: uint8)

  datatype IpNetwork =
    | V4Network(ip: Ipv4Addr, prefix: uint8)
    | V6Network(segments: seq<uint16>, prefix: uint8)

  /** The collaborators whose grammars lie outside this model, each as a total
      function: `None` is the collaborator's error. */
  datatype Environment = Environment(
    parseDuration: string -> Option<uint64>,   // crate::time::parse_to_milliseconds
    parseIpv4: string -> Option<Ipv4Addr>,     // Ipv4Addr::from_str
    parseMac: string -> Option<MacAddr>,       // MacAddr::from_str
    parseNetwork: string -> Option<IpNetwork>, // IpNetwork::from_str
    readFile: string -> Option<string>)        // fs::read_to_string

  /** One kind per site that prints a diagnostic and exits with status 1. */
  datatype ScanError =
    | InvalidProfile
    | UnreadableRangeFile(path: string)
    | InvalidNetworkRange
    | InvalidTimeout
    | InvalidSourceIp
    | InvalidDestinationMac
    | InvalidSourceMac
    | InvalidVlan
    | InvalidRetryCount
    | InvalidInterval
    | InvalidOutputFormat
    | InvalidHwType
    | InvalidHwAddr
    | InvalidProtoType
    | InvalidProtoAddr
    | InvalidArpOperation

  /** The resolved configuration, built once and shared read-only. The ARP
      header wrappers (`ArpHardwareType`, `EtherType`, `ArpOperation`) are
      plain 16-bit codes. */
  datatype ScanOptions = ScanOptions(
    profile: ProfileType,
    interfaceName: Option<string>,
    networkRange: Option<seq<IpNetwork>>,
    timeoutMs: uint64,
    resolveHostname: bool,
    sourceIpv4: Option<Ipv4Addr>,
    sourceMac: Option<MacAddr>,
    destinationMac: Option<MacAddr>,
    vlanId: Option<uint16>,
    retryCount: uint64,
    intervalMs: uint64,
    randomizeTargets: bool,
    output: OutputFormat,
    ouiFile: string,
    hwType: Option<uint16>,
    hwAddr: Option<uint8>,
    protoType: Option<uint16>,
    protoAddr: Option<uint8>,
    arpOperation: Option<uint16>)
  {
    /** `is_plain_output`: neither of the machine-readable formats. */
    predicate IsPlainOutput(): (plain: bool)
      ensures plain <==> output !in {Json, Yaml}
    {
      output == Plain
    }

    /** `has_vlan`: a VLAN id was resolved. */
    predicate HasVlan(): (tagged: bool)
      ensures tagged <==> vlanId != None
    {
      vlanId.Some?
    }
  }

  // ---------------------------------------------------------------------
  // Profile and output tokens

  function ProfileName(p: ProfileType): string {
    match p
    case Default => "default"
    case Fast => "fast"
    case Stealth => "stealth"
    case Chaos => "chaos"
  }

  const ProfileTokens: set<string> := {"default", "d", "fast", "f", "stealth", "s", "chaos", "c"}

  /** A profile is named in full or by its initial; no token means Default. */
  function ResolveProfile(token: Option<string>): (r: Result<ProfileType, ScanError>)
    ensures r.Ok? <==> token.None? || token.value in ProfileTokens
    ensures r.Err? ==> r.error == InvalidProfile
    ensures token.None? ==> r == Ok(Default)
    ensures r.Ok? && token.Some? ==>
      token.value == ProfileName(r.value) || token.value == ProfileName(r.value)[..1]
  {
    match token
    case None => Ok(Default)
    case Some(t) =>
      if t == "default" || t == "d" then Ok(Default)
      else if t == "fast" || t == "f" then Ok(Fast)
      else if t == "stealth" || t == "s" then Ok(Stealth)
      else if t == "chaos" || t == "c" then Ok(Chaos)
      else Err(InvalidProfile)
  }

  function FormatName(f: OutputFormat): string {
    match f
    case Plain => "plain"
    case Json => "json"
    case Yaml => "yaml"
  }

  const OutputTokens: set<string> := {"json", "yaml", "plain", "text"}

  /** A format is named by its name, with "text" a second name for Plain;
      no token means Plain. */
  function ResolveOutput(token: Option<string>): (r: Result<OutputFormat, ScanError>)
    ensures r.Ok? <==> token.None? || token.value in OutputTokens
    ensures r.Err? ==> r.error == InvalidOutputFormat
    ensures token.None? ==> r == Ok(Plain)
    ensures r.Ok? && token.Some? ==>
      token.value == FormatName(r.value) || (token.value == "text" && r.value == Plain)
  {
    match token
    case None => Ok(Plain)
    case Some(t) =>
      if t == "json" then Ok(Json)
      else if t == "yaml" then Ok(Yaml)
      else if t == "plain" || t == "text" then Ok(Plain)
      else Err(InvalidOutputFormat)
  }

  // ---------------------------------------------------------------------
  // Profile-dependent defaults

  function DefaultTimeout(p: ProfileType): uint64 {
    match p
    case Fast => TIMEOUT_MS_FAST
    case _ => TIMEOUT_MS_DEFAULT
  }

  function DefaultRetry(p: ProfileType): uint64 {
    match p
    case Chaos => HOST_RETRY_DEFAULT * 2
    case _ => HOST_RETRY_DEFAULT
  }

  function DefaultInterval(p: ProfileType): uint64 {
    match p
    case Stealth => REQUEST_MS_INTERVAL * 2
    case Fast => 0
    case _ => REQUEST_MS_INTERVAL
  }

  // ---------------------------------------------------------------------
  // Parse-or-fail field resolvers

  /** A field without a default: no text gives `None`, text the parser
      accepts gives its value, any other text is the field's error. */
  function ResolveOptional<T(==)>(raw: Option<string>, parse: string -> Option<T>, err: ScanError)
    : (r: Result<Option<T>, ScanError>)
    ensures r.Ok? <==> raw.None? || parse(raw.value).Some?
    ensures r.Err? ==> r.error == err
    ensures r.Ok? ==> (r.value.Some? <==> raw.Some?)
    ensures r.Ok? && raw.Some? ==> r.value == parse(raw.value)
  {
    match raw
    case None => Ok(None)
    case Some(text) =>
      match parse(text)
      case Some(v) => Ok(Some(v))
      case None => Err(err)
  }

  /** A field with a default: the explicit value always wins over `default`. */
  function ResolveOrDefault<T(==)>(raw: Option<string>, parse: string -> Option<T>, err: ScanError, default: T)
    : (r: Result<T, ScanError>)
    ensures r.Ok? <==> raw.None? || parse(raw.value).Some?
    ensures r.Err? ==> r.error == err
    ensures raw.None? ==> r == Ok(default)
    ensures r.Ok? && raw.Some? ==> parse(raw.value) == Some(r.value)
  {
    match raw
    case None => Ok(default)
    case Some(text) =>
      match parse(text)
      case Some(v) => Ok(v)
      case None => Err(err)
  }

  // ---------------------------------------------------------------------
  // Network ranges

  predicate RangesParse(pieces: seq<string>, parse: string -> Option<IpNetwork>) {
    forall i :: 0 <= i < |pieces| ==> parse(pieces[i]).Some?
  }

  /** Every piece parsed in order; the first piece that does not parse aborts
      the whole list. */
  function ParseRanges(pieces: seq<string>, parse: string -> Option<IpNetwork>)
    : (r: Result<seq<IpNetwork>, ScanError>)
    ensures r.Ok? <==> RangesParse(pieces, parse)
    ensures r.Err? ==> r.error == InvalidNetworkRange
    ensures r.Ok? ==> |r.value| == |pieces|
    ensures r.Ok? ==> forall i :: 0 <= i < |pieces| ==> parse(pieces[i]) == Some(r.value[i])
    decreases |pieces|
  {
    if pieces == [] then Ok([])
    else
      match parse(pieces[0])
      case None => Err(InvalidNetworkRange)
      case Some(net) =>
        var rest :- ParseRanges(pieces[1..], parse);
        Ok([net] + rest)
  }

  /** `r` is the all-or-nothing parse of `pieces`: a list with one network
      per piece, or the range error when some piece does not parse. */
  ghost predicate AllOrNothing(r: Result<Option<seq<IpNetwork>>, ScanError>, pieces: seq<string>, parse: string -> Option<IpNetwork>) {
    && (r.Ok? <==> RangesParse(pieces, parse))
    && (r.Err? ==> r.error == InvalidNetworkRange)
    && (r.Ok? ==> r.value.Some? && |r.value.value| == |pieces|)
    && (r.Ok? ==> forall i :: 0 <= i < |pieces| ==> parse(pieces[i]) == Some(r.value.value[i]))
  }

  /** `ScanOptions::compute_networks`: the lines of the range file or the
      comma-separated inline ranges, each parsed as a network; no list when
      neither source or both are given. */
  function ComputeNetworks(m: ArgMatches, env: Environment): (r: Result<Option<seq<IpNetwork>>, ScanError>)
    ensures ValueOf(m, "file").Some? == ValueOf(m, "network").Some? ==> r == Ok(None)
    ensures ValueOf(m, "file").None? && ValueOf(m, "network").Some? ==>
      var raw := ValueOf(m, "network").value;
      AllOrNothing(r, Split(raw, ','), env.parseNetwork)
      && (r.Ok? ==> |r.value.value| == Count(raw, ',') + 1)
    ensures ValueOf(m, "file").Some? && ValueOf(m, "network").None? ==>
      var path := ValueOf(m, "file").value;
      match env.readFile(path)
      case None => r == Err(UnreadableRangeFile(path))
      case Some(content) => AllOrNothing(r, Lines(content), env.parseNetwork)
  {
    match (ValueOf(m, "file"), ValueOf(m, "network"))
    case (Some(path), None) =>
      (match env.readFile(path)
       case None => Err(UnreadableRangeFile(path))
       case Some(content) =>
         var nets :- ParseRanges(Lines(content), env.parseNetwork);
         Ok(Some(nets)))
    case (None, Some(raw)) =>
      var nets :- ParseRanges(Split(raw, ','), env.parseNetwork);
      Ok(Some(nets))
    case _ => Ok(None)
  }

  // ---------------------------------------------------------------------
  // The assembler

  /** The names the five ARP header fields are looked up under. */
  datatype HeaderKeys = HeaderKeys(
    hwType: string, hwAddr: string, protoType: string, protoAddr: string, arpOperation: string)

  /** The names `ScanOptions::new` looks the header fields up under. */
  const SourceHeaderKeys: HeaderKeys := HeaderKeys("hw-type", "hw-addr", "proto-type", "proto-addr", "arp-op")

  /** The names `build_args` registers the header arguments under. */
  const RegisteredHeaderKeys: HeaderKeys :=
    HeaderKeys("hw_type", "hw_addr", "proto_type", "proto_addr", "arp_operation")

  // Groups of consecutive fields, in the order `ScanOptions::new` resolves
  // them; each group stops at its first field that cannot be resolved.

  /** What to scan and how long to wait for replies. */
  datatype Targets = Targets(
    interfaceName: Option<string>, networkRange: Option<seq<IpNetwork>>, timeoutMs: uint64, resolveHostname: bool)

  /** The addresses and VLAN tag put into outgoing frames. */
  datatype Addressing = Addressing(
    sourceIpv4: Option<Ipv4Addr>, destinationMac: Option<MacAddr>, sourceMac: Option<MacAddr>, vlanId: Option<uint16>)

  /** How often each host is asked and how long to wait between requests. */
  datatype Pacing = Pacing(retryCount: uint64, intervalMs: uint64)

  /** How the results are shown. */
  datatype Presentation = Presentation(output: OutputFormat, randomizeTargets: bool, ouiFile: string)

  /** The overrides of the ARP header. */
  datatype ArpHeader = ArpHeader(
    hwType: Option<uint16>, hwAddr: Option<uint8>, protoType: Option<uint16>, protoAddr: Option<uint8>,
    arpOperation: Option<uint16>)

  /** Interface, network ranges, timeout and hostname resolution. */
  function ResolveTargets(m: ArgMatches, env: Environment, profile: ProfileType): (r: Result<Targets, ScanError>)
    ensures r.Err? ==> ComputeNetworks(m, env) == Err(r.error) || r.error == InvalidTimeout
    ensures r.Ok? ==> r.value.interfaceName == ValueOf(m, "interface")
  {
    var interfaceName := ValueOf(m, "interface");
    var networkRange :- ComputeNetworks(m, env);
    var timeoutMs :- ResolveOrDefault(ValueOf(m, "timeout"), env.parseDuration, InvalidTimeout, DefaultTimeout(profile));
    var resolveHostname := !IsPresent(m, "numeric") && profile != Stealth;
    Ok(Targets(interfaceName, networkRange, timeoutMs, resolveHostname))
  }

  /** Source IPv4 address, destination and source MAC addresses, VLAN id. */
  function ResolveAddressing(m: ArgMatches, env: Environment): (r: Result<Addressing, ScanError>)
    ensures r.Err? ==> r.error in {InvalidSourceIp, InvalidDestinationMac, InvalidSourceMac, InvalidVlan}
  {
    var sourceIpv4 :- ResolveOptional(ValueOf(m, "source_ip"), env.parseIpv4, InvalidSourceIp);
    var destinationMac :- ResolveOptional(ValueOf(m, "destination_mac"), env.parseMac, InvalidDestinationMac);
    var sourceMac :- ResolveOptional(ValueOf(m, "source_mac"), env.parseMac, InvalidSourceMac);
    var vlanId :- ResolveOptional(ValueOf(m, "vlan"), ParseU16, InvalidVlan);
    Ok(Addressing(sourceIpv4, destinationMac, sourceMac, vlanId))
  }

  /** Retry count and interval, defaulting by profile. */
  function ResolvePacing(m: ArgMatches, env: Environment, profile: ProfileType): (r: Result<Pacing, ScanError>)
    ensures r.Err? ==> r.error in {InvalidRetryCount, InvalidInterval}
  {
    var retryCount :- ResolveOrDefault(ValueOf(m, "retry_count"), ParseUsize, InvalidRetryCount, DefaultRetry(profile));
    var intervalMs :- ResolveOrDefault(ValueOf(m, "interval"), env.parseDuration, InvalidInterval, DefaultInterval(profile));
    Ok(Pacing(retryCount, intervalMs))
  }

  /** Output format, target shuffling and the OUI database path. */
  function ResolvePresentation(m: ArgMatches, profile: ProfileType): (r: Result<Presentation, ScanError>)
    ensures r.Ok? <==> ResolveOutput(ValueOf(m, "output")).Ok?
    ensures r.Err? ==> r.error == InvalidOutputFormat
  {
    var output :- ResolveOutput(ValueOf(m, "output"));
    var randomizeTargets := IsPresent(m, "random") || profile == Stealth || profile == Chaos;
    var ouiFile := match ValueOf(m, "oui-file") case Some(file) => file case None => DEFAULT_OUI_FILE;
    Ok(Presentation(output, randomizeTargets, ouiFile))
  }

  /** The five ARP header fields, read under `keys`. */
  function ResolveArpHeader(m: ArgMatches, keys: HeaderKeys): (r: Result<ArpHeader, ScanError>)
    ensures r.Err? ==> r.error in {InvalidHwType, InvalidHwAddr, InvalidProtoType, InvalidProtoAddr, InvalidArpOperation}
    ensures r.Ok? ==> (r.value.hwType.Some? <==> ValueOf(m, keys.hwType).Some?)
    ensures r.Ok? ==> (r.value.hwAddr.Some? <==> ValueOf(m, keys.hwAddr).Some?)
    ensures r.Ok? ==> (r.value.protoType.Some? <==> ValueOf(m, keys.protoType).Some?)
    ensures r.Ok? ==> (r.value.protoAddr.Some? <==> ValueOf(m, keys.protoAddr).Some?)
    ensures r.Ok? ==> (r.value.arpOperation.Some? <==> ValueOf(m, keys.arpOperation).Some?)
  {
    var hwType :- ResolveOptional(ValueOf(m, keys.hwType), ParseU16, InvalidHwType);
    var hwAddr :- ResolveOptional(ValueOf(m, keys.hwAddr), ParseU8, InvalidHwAddr);
    var protoType :- ResolveOptional(ValueOf(m, keys.protoType), ParseU16, InvalidProtoType);
    var protoAddr :- ResolveOptional(ValueOf(m, keys.protoAddr), ParseU8, InvalidProtoAddr);
    var arpOperation :- ResolveOptional(ValueOf(m, keys.arpOperation), ParseU16, InvalidArpOperation);
    Ok(ArpHeader(hwType, hwAddr, protoType, protoAddr, arpOperation))
  }

  /** `ScanOptions::new`, with the header fields read under `keys`: every
      field in source order, stopping at the first that cannot be resolved. */
  function Resolve(m: ArgMatches, env: Environment, keys: HeaderKeys): (r: Result<ScanOptions, ScanError>)
    ensures ResolveProfile(ValueOf(m, "profile")).Err? ==> r == Err(InvalidProfile)
    ensures r.Ok? ==> ResolveProfile(ValueOf(m, "profile")) == Ok(r.value.profile)
    ensures r.Ok? ==> r.value.interfaceName == ValueOf(m, "interface")
    ensures r.Ok? ==>
      ResolveArpHeader(m, keys) == Ok(ArpHeader(r.value.hwType, r.value.hwAddr, r.value.protoType, r.value.protoAddr, r.value.arpOperation))
  {
    var profile :- ResolveProfile(ValueOf(m, "profile"));
    var t :- ResolveTargets(m, env, profile);
    var a :- ResolveAddressing(m, env);
    var p :- ResolvePacing(m, env, profile);
    var o :- ResolvePresentation(m, profile);
    var h :- ResolveArpHeader(m, keys);
    Ok(ScanOptions(
      profile, t.interfaceName, t.networkRange, t.timeoutMs, t.resolveHostname,
      a.sourceIpv4, a.sourceMac, a.destinationMac, a.vlanId, p.retryCount, p.intervalMs,
      o.randomizeTargets, o.output, o.ouiFile, h.hwType, h.hwAddr, h.protoType, h.protoAddr,
      h.arpOperation))
  }

  /** `ScanOptions::new` as written: the header fields are looked up under
      "hw-type", "hw-addr", "proto-type", "proto-addr" and "arp-op". */
  function NewAsWritten(m: ArgMatches, env: Environment): (r: Result<ScanOptions, ScanError>)
    ensures r.Ok? ==> (r.value.hwType.Some? <==> ValueOf(m, "hw-type").Some?)
    ensures r.Ok? ==> (r.value.hwAddr.Some? <==> ValueOf(m, "hw-addr").Some?)
    ensures r.Ok? ==> (r.value.protoType.Some? <==> ValueOf(m, "proto-type").Some?)
    ensures r.Ok? ==> (r.value.protoAddr.Some? <==> ValueOf(m, "proto-addr").Some?)
    ensures r.Ok? ==> (r.value.arpOperation.Some? <==> ValueOf(m, "arp-op").Some?)
  {
    Resolve(m, env, SourceHeaderKeys)
  }

  /** `ScanOptions::new` with the header fields looked up under the names
      their arguments are registered under: the corrected resolver. */
  function New(m: ArgMatches, env: Environment): (r: Result<ScanOptions, ScanError>)
    ensures r.Ok? ==> (r.value.hwType.Some? <==> ValueOf(m, "hw_type").Some?)
    ensures r.Ok? ==> (r.value.hwAddr.Some? <==> ValueOf(m, "hw_addr").Some?)
    ensures r.Ok? ==> (r.value.protoType.Some? <==> ValueOf(m, "proto_type").Some?)
    ensures r.Ok? ==> (r.value.protoAddr.Some? <==> ValueOf(m, "proto_addr").Some?)
    ensures r.Ok? ==> (r.value.arpOperation.Some? <==> ValueOf(m, "arp_operation").Some?)
  {
    Resolve(m, env, RegisteredHeaderKeys)
  }
}
