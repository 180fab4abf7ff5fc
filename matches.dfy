/** The parsed command line as the argument parser hands it to the resolver
    (`clap::ArgMatches`). The grammar itself (`build_args`) is not modelled:
    only the names it registers arguments under and the one conflict it
    declares. */
module CliMatches {
  import opened Results

  /** The text given for every argument that takes a value, and the set of
      boolean flags given, each keyed by the name the argument is registered
      under. */
  datatype ArgMatches = ArgMatches(values: map<string, string>, flags: set<string>)

  /** `matches.value_of(name)`: the text given for `name`; a name that no
      argument is registered under simply has none. */
  function ValueOf(m: ArgMatches, name: string): Option<string> {
    if name in m.values then Some(m.values[name]) else None
  }

  /** `matches.is_present(name)`. */
  predicate IsPresent(m: ArgMatches, name: string) {
    name in m.values || name in m.flags
  }

  /** The names `build_args` registers its value-taking arguments under. */
  const ValueArgs: set<string> := {
    "profile", "interface", "network", "file", "timeout", "source_ip",
    "destination_mac", "source_mac", "vlan", "retry_count", "interval",
    "oui-file", "output", "hw_type", "hw_addr", "proto_type", "proto_addr",
    "arp_operation"
  }

  /** The names of its boolean flags. */
  const FlagArgs: set<string> := {"numeric", "random", "list"}

  /** Matches the grammar can produce: registered names only, and a range
      file never together with inline ranges (`file` conflicts with `network`). */
  predicate Producible(m: ArgMatches) {
    && m.values.Keys <= ValueArgs
    && m.flags <= FlagArgs
    && !("file" in m.values && "network" in m.values)
  }
}
