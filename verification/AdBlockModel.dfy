/** The ad-block records that commands, refreshes and reloads share. */
module AdBlockModel {
  import opened Base

  /** A source's UUID, read as a 128-bit number: UUIDs compare byte by byte, which is this order. */
  type SourceId = id: nat | id < 0x1_0000_0000_0000_0000_0000_0000_0000_0000

  /** What a 64-bit hasher returns. */
  type Hash = h: nat | h < 0x1_0000_0000_0000_0000

  datatype Response = ZeroAddress | NxDomain

  datatype Format = Hosts | Domains

  datatype Source = Source(
    id: SourceId,
    name: string,
    url: string,
    enabled: bool,
    response: Response,
    format: Format,
    lastFetchedAt: Option<nat>,
    lastError: Option<string>,
    ruleCount: nat,
    etag: Option<string>,
    rulesLimitOverride: Option<nat>)

  datatype AdBlockState = AdBlockState(
    enabled: bool,
    sources: seq<Source>,
    whitelist: seq<string>,
    autoRefreshEnabled: bool,
    refreshIntervalHours: nat)

  const MAX_RULES_PER_SOURCE: nat := 500_000
  const ABSOLUTE_MAX_RULES_PER_SOURCE: nat := 2_000_000

  /** Every source has its own id (ids are fresh UUIDs). */
  ghost predicate DistinctIds(sources: seq<Source>) {
    forall i, j :: 0 <= i < j < |sources| ==> sources[i].id != sources[j].id
  }
}
