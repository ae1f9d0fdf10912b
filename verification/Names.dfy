/** Deterministic names (names.py). Identifiers are truncated, so two can share a name. */
module Names {
  import opened Collections

  function Take(s: string, n: nat): string {
    if |s| <= n then s else s[..n]
  }

  function TapName(port: string): Name {
    "tap" + Take(port, 11)
  }

  function FilterName(port: string): Name {
    "sg-" + Take(port, 12)
  }

  function TableName(group: string): Name {
    "rg-" + Take(group, 12)
  }

  function DhcpIfName(port: string): Name {
    "dh" + Take(port, 13)
  }

  function RouterIfName(port: string): Name {
    "rt" + Take(port, 13)
  }

  function WithoutDashes(s: string): string {
    if s == "" then "" else (if s[0] == '-' then "" else [s[0]]) + WithoutDashes(s[1..])
  }

  function RouterJail(id: string): Name {
    "qrouter-" + Take(WithoutDashes(id), 12)
  }

  function RouterJailIf(port: string, gateway: bool): Name {
    (if gateway then "qg-" else "qr-") + Take(port, 11)
  }

  function DhcpJail(id: string): Name {
    "qdhcp-" + Take(WithoutDashes(id), 12)
  }

  /** The text whose digest names a segment's bridge. */
  type SegmentKey = string

  function BridgeName(key: SegmentKey, digest: SegmentKey -> string): Name {
    "pb" + Take(digest(key), 12)
  }
}
