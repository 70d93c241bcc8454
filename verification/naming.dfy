/**
 * Metric naming: the proxy name has every `:` replaced by `.` (Go's
 * `strings.Replace(pxname, ":", ".", -1)`), and a gauge is named
 * `<pxname>.<svname>.<key>`.
 */
module Naming {

  /** Replaces every occurrence of `from` by `to`, scanning left to right. */
  function ReplaceChar(s: string, from: char, to: char): (r: string)
    ensures |r| == |s|
    ensures forall i :: 0 <= i < |s| ==> r[i] == (if s[i] == from then to else s[i])
    decreases |s|
  {
    if |s| == 0 then ""
    else [if s[0] == from then to else s[0]] + ReplaceChar(s[1..], from, to)
  }

  /** The proxy name made safe for the hierarchical namespace of the metrics sink. */
  function Sanitize(pxname: string): (r: string)
    ensures |r| == |pxname|
    ensures ':' !in r
    ensures forall i :: 0 <= i < |pxname| && pxname[i] != ':' ==> r[i] == pxname[i]
    ensures forall i :: 0 <= i < |pxname| && pxname[i] == ':' ==> r[i] == '.'
  {
    ReplaceChar(pxname, ':', '.')
  }

  /** The name a gauge is sent under, before the sink's own prefix. */
  function MetricName(pxname: string, svname: string, key: string): string {
    pxname + "." + svname + "." + key
  }

  /** Sanitizing twice is sanitizing once. */
  lemma SanitizeIdempotent(pxname: string)
    ensures Sanitize(Sanitize(pxname)) == Sanitize(pxname)
  {
  }

  /** A proxy name is left unchanged exactly when it holds no `:`. */
  lemma SanitizeFixedPoint(pxname: string)
    ensures Sanitize(pxname) == pxname <==> ':' !in pxname
  {
  }

  /** For one proxy and server, distinct keys give distinct metric names. */
  lemma MetricNameInjective(pxname: string, svname: string, k1: string, k2: string)
    requires MetricName(pxname, svname, k1) == MetricName(pxname, svname, k2)
    ensures k1 == k2
  {
    var p := pxname + "." + svname + ".";
    assert MetricName(pxname, svname, k1) == p + k1;
    assert MetricName(pxname, svname, k2) == p + k2;
    assert k1 == (p + k1)[|p|..];
    assert k2 == (p + k2)[|p|..];
  }

  /** A metric name splits back into its sanitized proxy, server and key segments. */
  lemma MetricNameSegments(pxname: string, svname: string, key: string)
    ensures var name := MetricName(Sanitize(pxname), svname, key);
      && |name| == |pxname| + |svname| + |key| + 2
      && name[..|pxname|] == Sanitize(pxname)
      && name[|pxname|] == '.'
      && name[|pxname| + 1..|pxname| + 1 + |svname|] == svname
      && name[|pxname| + 1 + |svname|] == '.'
      && name[|pxname| + |svname| + 2..] == key
  {
  }

  /**
   * The proxy segment never contributes a `:`: with a colon-free key, the
   * metric name holds a `:` exactly when the server name does.
   */
  lemma MetricNameColon(pxname: string, svname: string, key: string)
    requires ':' !in key
    ensures ':' in MetricName(Sanitize(pxname), svname, key) <==> ':' in svname
  {
  }

  /** A proxy name with a port suffix: `web:80` becomes the two segments `web.80`. */
  lemma PortSuffixExample()
    ensures MetricName(Sanitize("web:80"), "db", "scur") == "web.80.db.scur"
  {
  }
}
