/**
 * Ticker names in app.py: the NSE symbols get ".NS" appended when the ticker
 * list is built (get_nse_tickers), and every ".NS" is removed again with
 * `str.replace` before the fundamentals are fetched.
 */
module Tickers {

  const Suffix: string := ".NS"

  /** `pat` occurs somewhere in `s`. */
  predicate Contains(s: string, pat: string)
    requires |pat| > 0
    decreases |s|
  {
    |pat| <= |s| && (s[..|pat|] == pat || Contains(s[1..], pat))
  }

  /** A ticker as built: the symbol followed by ".NS". */
  function WithSuffix(symbol: string): (t: string)
    ensures |t| == |symbol| + |Suffix| && t[..|symbol|] == symbol && t[|symbol|..] == Suffix
  {
    symbol + Suffix
  }

  /**
   * The ticker list: the small-cap symbols then the mid-cap ones, in order,
   * each with ".NS" appended.
   */
  function BuildTickers(small: seq<string>, mid: seq<string>): (ts: seq<string>)
    ensures |ts| == |small| + |mid|
    ensures forall i :: 0 <= i < |ts| ==> ts[i] == WithSuffix((small + mid)[i])
    ensures forall t :: t in ts ==> |t| >= |Suffix| && t[|t| - |Suffix|..] == Suffix
  {
    seq(|small| + |mid|, i requires 0 <= i < |small| + |mid| => WithSuffix((small + mid)[i]))
  }

  /**
   * `s.replace(pat, "")`: every occurrence of `pat`, found left to right
   * without overlap, is removed.
   */
  function RemoveAll(s: string, pat: string): (r: string)
    requires |pat| > 0
    ensures |r| <= |s|
    ensures !Contains(s, pat) ==> r == s
    ensures Contains(s, pat) ==> |r| <= |s| - |pat|
    decreases |s|
  {
    if |pat| <= |s| && s[..|pat|] == pat then RemoveAll(s[|pat|..], pat)
    else if s == [] then []
    else [s[0]] + RemoveAll(s[1..], pat)
  }

  /** `t.replace('.NS', '')`, the symbol the hunt loop fetches for ticker t. */
  function StripSuffix(t: string): (symbol: string)
    ensures |symbol| <= |t|
  {
    RemoveAll(t, Suffix)
  }

  /** Stripping a built ticker gives back its symbol, when the symbol has no ".NS" of its own. */
  lemma {:induction false} StripWithSuffix(symbol: string)
    requires !Contains(symbol, Suffix)
    ensures StripSuffix(WithSuffix(symbol)) == symbol
  {
    var t := symbol + Suffix;
    if symbol == [] {
      assert t[..3] == Suffix;
      assert t[3..] == [];
    } else {
      assert t[..3] != Suffix by {
        if |symbol| >= 3 {
          assert t[..3] == symbol[..3];
        } else if |symbol| == 1 {
          assert t[1] == '.';
        } else {
          assert t[2] == '.';
        }
      }
      assert t[1..] == symbol[1..] + Suffix;
      assert !Contains(symbol[1..], Suffix);
      StripWithSuffix(symbol[1..]);
      assert [symbol[0]] + symbol[1..] == symbol;
    }
  }

  /** Without that condition the round trip fails: an inner ".NS" is removed too. */
  lemma InnerSuffixIsLost()
    ensures StripSuffix(WithSuffix("A.NSB")) == "AB"
  {
    assert WithSuffix("A.NSB") == "A.NSB.NS";
    assert RemoveAll("", Suffix) == "";
    assert RemoveAll(".NS", Suffix) == "";
    assert RemoveAll("B.NS", Suffix) == "B";
    assert RemoveAll(".NSB.NS", Suffix) == "B";
    assert RemoveAll("A.NSB.NS", Suffix) == "AB";
  }
}
