/** The exchange-code rewrite shared by both copies of `fix_tick`: a code
    whose last dot-separated segment is `XSHG` (Shanghai) or `XSHE`
    (Shenzhen) is rewritten to its FIRST segment followed by the suffix the
    data provider expects; every other code passes through. The two copies
    differ only in the Shanghai suffix, which is a parameter here. */
module TickerCodes {
  import opened Strings

  /** `tick.split('.')[0]` */
  function FirstSegment(tick: string): (f: string)
    ensures '.' !in f
  {
    Split(tick, '.')[0]
  }

  /** `tick.split('.')[-1]` */
  function LastSegment(tick: string): (l: string)
    ensures '.' !in l
  {
    var parts := Split(tick, '.');
    parts[|parts| - 1]
  }

  /** A suffix a provider may use for Shanghai: one segment, and not itself
      one of the two exchange codes that get rewritten. */
  predicate IsProviderSuffix(suffix: string)
  {
    '.' !in suffix && suffix != "XSHG" && suffix != "XSHE"
  }

  /** Both segments of `first + "." + last` are recovered when neither holds a dot. */
  lemma SegmentsOfQualified(first: string, last: string)
    requires '.' !in first && '.' !in last
    ensures FirstSegment(first + "." + last) == first
    ensures LastSegment(first + "." + last) == last
  {
    assert first + "." + last == Join([first, last], '.');
    SplitJoin([first, last], '.');
  }

  /** The two `if` statements of `fix_tick`, in order, with the Shanghai
      suffix as a parameter. After the rewrite the last segment is never an
      exchange code that would be rewritten again. */
  function Rewrite(tick: string, shanghai: string): (r: string)
    requires IsProviderSuffix(shanghai)
    ensures LastSegment(tick) == "XSHG" ==> r == FirstSegment(tick) + "." + shanghai
    ensures LastSegment(tick) == "XSHE" ==> r == FirstSegment(tick) + ".SZ"
    ensures LastSegment(tick) != "XSHG" && LastSegment(tick) != "XSHE" ==> r == tick
    ensures LastSegment(r) != "XSHG" && LastSegment(r) != "XSHE"
  {
    SegmentsOfQualified(FirstSegment(tick), shanghai);
    var t := if LastSegment(tick) == "XSHG" then FirstSegment(tick) + "." + shanghai else tick;
    SegmentsOfQualified(FirstSegment(t), "SZ");
    assert FirstSegment(t) + "." + "SZ" == FirstSegment(t) + ".SZ";
    assert |"SZ"| != |"XSHG"|;
    if LastSegment(t) == "XSHE" then FirstSegment(t) + ".SZ" else t
  }

  /** Rewriting twice is rewriting once. */
  lemma RewriteIdempotent(tick: string, shanghai: string)
    requires IsProviderSuffix(shanghai)
    ensures Rewrite(Rewrite(tick, shanghai), shanghai) == Rewrite(tick, shanghai)
  {
  }
}
