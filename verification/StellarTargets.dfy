/** Optional values, and the layout targets shared by the focused layout and the viewport composer. */
module Options {
  datatype Option<+T> = None | Some(value: T)
}

module StellarTargets {
  import opened Options

  datatype Role = Focus | Incoming | Outgoing | Bidirectional | Hub | Context

  datatype Sector = Sector(key: string, start: real, span: real)

  datatype Target = Target(
    x: real,
    y: real,
    role: Role,
    depth: Option<nat>,
    laneKey: Option<string>,
    sector: Sector)
}
