/**
 * Display helpers shared by the views: the "time ago" label of a host's last
 * report and the pastel colour a hostname is given.
 */
module Formatters {
  import opened Text

  // ---------------------------------------------------------------- time ago

  /**
   * The label of a report `diff` milliseconds old: "刚刚" for a report from
   * the future, then whole seconds, minutes, hours or days, each unit used
   * only below the next one.
   */
  function TimeAgo(diff: int): (ago: string)
    ensures diff < 0 ==> ago == "刚刚"
    ensures 0 <= diff < 60000 ==> ago == NatToDecimal(diff / 1000) + "秒前"
    ensures 60000 <= diff < 3600000 ==> ago == NatToDecimal(diff / 60000) + "分钟前"
    ensures 3600000 <= diff < 86400000 ==> ago == NatToDecimal(diff / 3600000) + "小时前"
    ensures 86400000 <= diff ==> ago == NatToDecimal(diff / 86400000) + "天前"
  {
    if diff < 0 then "刚刚"
    else
      var seconds := diff / 1000;
      if seconds < 60 then NatToDecimal(seconds) + "秒前"
      else
        var minutes := seconds / 60;
        assert minutes == diff / 60000;
        if minutes < 60 then NatToDecimal(minutes) + "分钟前"
        else
          var hours := minutes / 60;
          assert hours == diff / 3600000;
          if hours < 24 then NatToDecimal(hours) + "小时前"
          else
            assert hours / 24 == diff / 86400000;
            NatToDecimal(hours / 24) + "天前"
  }

  /**
   * Each label counts in one unit, from 1 (0 for seconds) and below the next
   * unit: at most 59 seconds or minutes, at most 23 hours.
   */
  lemma TimeAgoCounts(diff: int)
    ensures 0 <= diff < 60000 ==> exists n :: 0 <= n < 60 && TimeAgo(diff) == NatToDecimal(n) + "秒前"
    ensures 60000 <= diff < 3600000 ==> exists n :: 1 <= n < 60 && TimeAgo(diff) == NatToDecimal(n) + "分钟前"
    ensures 3600000 <= diff < 86400000 ==> exists n :: 1 <= n < 24 && TimeAgo(diff) == NatToDecimal(n) + "小时前"
    ensures 86400000 <= diff ==> exists n :: 1 <= n && TimeAgo(diff) == NatToDecimal(n) + "天前"
  {
    if 0 <= diff < 60000 {
      var n := diff / 1000;
      assert 0 <= n < 60 && TimeAgo(diff) == NatToDecimal(n) + "秒前";
    } else if 60000 <= diff < 3600000 {
      var n := diff / 60000;
      assert 1 <= n < 60 && TimeAgo(diff) == NatToDecimal(n) + "分钟前";
    } else if 3600000 <= diff < 86400000 {
      var n := diff / 3600000;
      assert 1 <= n < 24 && TimeAgo(diff) == NatToDecimal(n) + "小时前";
    } else if 86400000 <= diff {
      var n := diff / 86400000;
      assert 1 <= n && TimeAgo(diff) == NatToDecimal(n) + "天前";
    }
  }

  // ---------------------------------------------------------------- host colours

  /** The keys of the pastel palette, in declaration order. */
  const ColorKeys: seq<string> := [
    "pink", "blue", "peach", "purple", "steelBlue",
    "green", "yellow", "lavender", "thistle", "aliceBlue"]

  /** The three shades of one palette entry. */
  datatype Pastel = Pastel(title: string, body: string, card: string)

  function Shades(rgb: string): Pastel {
    Pastel("rgba(" + rgb + ", 0.3)", "rgba(" + rgb + ", 0.15)", "rgba(" + rgb + ", 0.25)")
  }

  const PastelColors: map<string, Pastel> := map[
    "pink" := Shades("255, 182, 193"),
    "blue" := Shades("176, 224, 230"),
    "peach" := Shades("255, 218, 185"),
    "purple" := Shades("221, 160, 221"),
    "steelBlue" := Shades("176, 196, 222"),
    "green" := Shades("152, 251, 152"),
    "yellow" := Shades("238, 232, 170"),
    "lavender" := Shades("230, 230, 250"),
    "thistle" := Shades("216, 191, 216"),
    "aliceBlue" := Shades("240, 248, 255")]

  /** Every key the colour index can return names a palette entry. */
  lemma ColorKeysInPalette()
    ensures forall k :: 0 <= k < |ColorKeys| ==> ColorKeys[k] in PastelColors
    ensures PastelColors.Keys == set k | k in ColorKeys
  {
  }

  /**
   * The sum of `charCodeAt` over one character: a character outside the
   * basic plane is two UTF-16 code units, a surrogate pair.
   */
  function CodeUnits(c: char): (sum: nat)
    ensures (c as int) <= 0xFFFF ==> sum == c as int
  {
    if (c as int) <= 0xFFFF then c as int
    else
      var v := c as int - 0x10000;
      (0xD800 + v / 0x400) + (0xDC00 + v % 0x400)
  }

  /** The sum of the code units of a string. */
  function CodeSum(s: string): (sum: nat)
    ensures s == [] ==> sum == 0
    ensures |s| == 1 ==> sum == CodeUnits(s[0])
  {
    if s == [] then 0 else CodeSum(s[..|s| - 1]) + CodeUnits(s[|s| - 1])
  }

  lemma {:induction false} CodeSumConcat(s: string, t: string)
    ensures CodeSum(s + t) == CodeSum(s) + CodeSum(t)
  {
    if t != [] {
      assert (s + t)[..|s + t| - 1] == s + t[..|t| - 1];
      CodeSumConcat(s, t[..|t| - 1]);
    } else {
      assert s + t == s;
    }
  }

  /** `getColorIndex`: the palette key picked by the code-unit sum of the hostname. */
  method GetColorIndex(hostname: string) returns (key: string)
    ensures key == ColorKeys[CodeSum(hostname) % |ColorKeys|]
  {
    var sum := 0;
    for i := 0 to |hostname|
      invariant sum == CodeSum(hostname[..i])
    {
      assert hostname[..i + 1][..i] == hostname[..i];
      sum := sum + CodeUnits(hostname[i]);
    }
    assert hostname[..|hostname|] == hostname;
    key := ColorKeys[sum % |ColorKeys|];
  }

  /** The key of a hostname, as the views use it. */
  function ColorKey(hostname: string): (key: string)
    ensures key in PastelColors
  {
    ColorKeysInPalette();
    ColorKeys[CodeSum(hostname) % |ColorKeys|]
  }

  /** The colour depends only on which characters the hostname holds, not on their order. */
  lemma ColorIgnoresOrder(a: string, b: string)
    requires multiset(a) == multiset(b)
    ensures CodeSum(a) == CodeSum(b)
    ensures ColorKey(a) == ColorKey(b)
  {
    CodeSumIgnoresOrder(a, b);
  }

  /** The code-unit sum does not depend on the order of the characters. */
  lemma {:induction false} CodeSumIgnoresOrder(a: string, b: string)
    requires multiset(a) == multiset(b)
    ensures CodeSum(a) == CodeSum(b)
  {
    if a != [] {
      var k := MatchFirst(a, b);
      CodeSumIgnoresOrder(a[1..], b[..k] + b[k + 1..]);
      CodeSumFirst(a);
      CodeSumAt(b, k);
    } else {
      assert b == [];
    }
  }

  /** The sum over a string is the sum without its `k`-th character, plus that character. */
  lemma CodeSumAt(s: string, k: nat)
    requires k < |s|
    ensures CodeSum(s) == CodeSum(s[..k] + s[k + 1..]) + CodeUnits(s[k])
  {
    SplitAround(s, k);
    CodeSumAround(s[..k], s[k], s[k + 1..], s);
  }

  /** The sum over a string is the sum over its tail, plus its first character. */
  lemma CodeSumFirst(s: string)
    requires s != []
    ensures CodeSum(s) == CodeSum(s[1..]) + CodeUnits(s[0])
  {
    CodeSumAt(s, 0);
    assert s[..0] + s[1..] == s[1..];
  }

  /** A string is what lies before position `k`, the character at `k`, and what follows. */
  lemma SplitAround(s: string, k: nat)
    requires k < |s|
    ensures s == s[..k] + [s[k]] + s[k + 1..]
  {
  }

  /** The sum over a string is the sum without one character, plus that character. */
  lemma CodeSumAround(p: string, c: char, q: string, s: string)
    requires s == p + [c] + q
    ensures CodeSum(s) == CodeSum(p + q) + CodeUnits(c)
  {
    CodeSumConcat(p + [c], q);
    assert (p + [c])[..|p|] == p;
    CodeSumConcat(p, q);
  }

  /** The first character of a string occurs in any anagram of it; taking it out of both leaves two anagrams. */
  lemma MatchFirst(a: string, b: string) returns (k: nat)
    requires multiset(a) == multiset(b) && a != []
    ensures k < |b| && b[k] == a[0]
    ensures multiset(a[1..]) == multiset(b[..k] + b[k + 1..])
  {
    assert a[0] in multiset(b);
    k :| 0 <= k < |b| && b[k] == a[0];
    RemoveMatching(a, b, k);
  }

  /** Taking the same character out of two anagrams leaves two anagrams. */
  lemma RemoveMatching(a: string, b: string, k: nat)
    requires multiset(a) == multiset(b) && a != [] && k < |b| && b[k] == a[0]
    ensures multiset(a[1..]) == multiset(b[..k] + b[k + 1..])
  {
    var rest := b[..k] + b[k + 1..];
    assert multiset(a) == multiset([a[0]]) + multiset(a[1..]) by {
      assert a == [a[0]] + a[1..];
    }
    assert multiset(b) == multiset(b[..k]) + multiset([b[k]]) + multiset(b[k + 1..]) by {
      assert b == b[..k] + [b[k]] + b[k + 1..];
    }
    assert multiset(rest) == multiset(b[..k]) + multiset(b[k + 1..]);
    forall x ensures multiset(a[1..])[x] == multiset(rest)[x] {
      assert multiset(a)[x] == multiset(b)[x];
    }
  }

  /** Appending characters whose code units add up to a multiple of ten keeps the colour. */
  lemma ColorPeriodic(a: string, t: string)
    requires CodeSum(t) % 10 == 0
    ensures ColorKey(a + t) == ColorKey(a)
  {
    CodeSumConcat(a, t);
    ShiftByTen(CodeSum(a), CodeSum(t));
    assert |ColorKeys| == 10;
    assert CodeSum(a + t) % |ColorKeys| == CodeSum(a) % |ColorKeys|;
  }

  lemma ShiftByTen(x: nat, y: nat)
    requires y % 10 == 0
    ensures (x + y) % 10 == x % 10
  {
    assert y == 10 * (y / 10);
  }

  /** The empty hostname gets the first colour. */
  lemma EmptyHostnameIsPink()
    ensures ColorKey("") == "pink"
  {
  }
}
