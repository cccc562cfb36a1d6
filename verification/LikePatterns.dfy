/** The LIKE classification shared by compiler, VM and tree walker (pkg/vm/compile.go:221-235). */
module LikePatterns {
  import opened Vm

  datatype LikeKind = ByContains | ByPrefix | BySuffix | ByEquals

  /** strings.Trim(s, "%"). */
  function TrimLeft(s: string): string {
    if s != "" && s[0] == '%' then TrimLeft(s[1..]) else s
  }

  function TrimRight(s: string): string {
    if s != "" && s[|s| - 1] == '%' then TrimRight(s[..|s| - 1]) else s
  }

  function Trim(s: string): string { TrimRight(TrimLeft(s)) }

  function LikeParts(pattern: string): (LikeKind, string) {
    var pre, suf, core := HasPrefix(pattern, "%"), HasSuffix(pattern, "%"), Trim(pattern);
    if pre && suf then (ByContains, core)
    else if suf then (ByPrefix, core)
    else if pre then (BySuffix, core)
    else (ByEquals, core)
  }

  predicate LikeTest(kind: LikeKind, s: string, core: string) {
    match kind
    case ByContains => Contains(s, core)
    case ByPrefix => HasPrefix(s, core)
    case BySuffix => HasSuffix(s, core)
    case ByEquals => s == core
  }

  /** The test the engine applies for `s LIKE pattern`. */
  predicate LikeHolds(s: string, pattern: string) {
    var (kind, core) := LikeParts(pattern);
    LikeTest(kind, s, core)
  }
}
