/**
 * The two pieces of the service's glue that carry logic of their own: the
 * clean-up of the ticker a webhook delivers, and the pause between two
 * trailing-stop passes.
 */
module Service {
  import opened Basics

  /** str.split(sep) with a one-character separator. */
  function Split(s: string, sep: char): (r: seq<string>)
    ensures |r| >= 1
    ensures forall i | 0 <= i < |r| :: sep !in r[i]
    ensures sep !in s ==> r == [s]
    ensures sep in s ==> |r| >= 2
  {
    if |s| == 0 then [""]
    else
      var rest := Split(s[1..], sep);
      if s[0] == sep then [""] + rest
      else
        assert sep in s ==> sep in s[1..] by {
          if sep in s {
            var k :| 0 <= k < |s| && s[k] == sep;
            assert s[1..][k - 1] == sep;
          }
        }
        assert sep !in s ==> sep !in s[1..];
        assert [s[0]] + s[1..] == s;
        [[s[0]] + rest[0]] + rest[1..]
  }

  /** sep.join(parts) */
  function Join(parts: seq<string>, sep: char): string
  {
    if |parts| == 0 then ""
    else if |parts| == 1 then parts[0]
    else parts[0] + [sep] + Join(parts[1..], sep)
  }

  /** Splitting loses nothing: joining the pieces back gives the original text. */
  lemma {:induction false} SplitJoin(s: string, sep: char)
    ensures Join(Split(s, sep), sep) == s
  {
    if |s| > 0 {
      var rest := Split(s[1..], sep);
      SplitJoin(s[1..], sep);
      if s[0] == sep {
        assert Split(s, sep) == [""] + rest;
        assert Join(Split(s, sep), sep) == "" + [sep] + Join(rest, sep);
        assert s == [s[0]] + s[1..];
      } else {
        var r := Split(s, sep);
        assert r == [[s[0]] + rest[0]] + rest[1..];
        if |rest| == 1 {
          assert Join(r, sep) == [s[0]] + rest[0];
          assert s == [s[0]] + s[1..];
        } else {
          assert r[1..] == rest[1..];
          assert Join(rest, sep) == rest[0] + [sep] + Join(rest[1..], sep);
          assert Join(r, sep) == [s[0]] + rest[0] + [sep] + Join(rest[1..], sep);
          assert s == [s[0]] + s[1..];
        }
      }
    }
  }

  /** Text before the first separator becomes the first piece; the rest is split on its own. */
  lemma {:induction false} SplitAtFirst(a: string, b: string, sep: char)
    requires sep !in a
    ensures Split(a + [sep] + b, sep) == [a] + Split(b, sep)
  {
    var s := a + [sep] + b;
    if |a| == 0 {
      assert s[1..] == b;
    } else {
      assert s[1..] == a[1..] + [sep] + b;
      SplitAtFirst(a[1..], b, sep);
      assert [a[0]] + a[1..] == a;
    }
  }

  /** ASCII upper-casing of one character. */
  function UpperChar(c: char): (r: char)
    ensures 'a' <= c <= 'z' ==> 'A' <= r <= 'Z' && c as int - r as int == 32
    ensures !('a' <= c <= 'z') ==> r == c
  {
    if 'a' <= c <= 'z' then (c as int - 32) as char else c
  }

  /** str.upper() on ASCII text. */
  function Upper(s: string): (r: string)
    ensures |r| == |s| && forall i | 0 <= i < |s| :: r[i] == UpperChar(s[i])
  {
    if |s| == 0 then "" else [UpperChar(s[0])] + Upper(s[1..])
  }

  /** t.upper().endswith(suffix) for an upper-case suffix. */
  predicate EndsWithIgnoringCase(t: string, suffix: string)
  {
    |t| >= |suffix| && Upper(t[|t| - |suffix|..]) == suffix
  }

  /** A marker suffix written in any case. */
  predicate PerpetualMarker(suffix: string)
  {
    Upper(suffix) == ".P" || Upper(suffix) == ".PERP"
  }

  /**
   * Drops a TradingView perpetual-contract marker ".P" or ".PERP", in any
   * case: the result is a prefix of the ticker, the ticker is kept whole
   * exactly when it carries no marker, and what is dropped is a marker.
   */
  function StripPerpetualSuffix(t: string): (r: string)
    ensures |r| <= |t| && r == t[..|r|]
    ensures r == t <==> !EndsWithIgnoringCase(t, ".P") && !EndsWithIgnoringCase(t, ".PERP")
    ensures r != t ==> PerpetualMarker(t[|r|..])
  {
    if EndsWithIgnoringCase(t, ".P") then t[..|t| - 2]
    else if EndsWithIgnoringCase(t, ".PERP") then t[..|t| - 5]
    else t
  }

  /**
   * The webhook's ticker clean-up: keep the second ':'-separated field when
   * there is an exchange prefix, then drop a perpetual-contract marker.
   */
  function NormalizeTicker(raw: string): (r: string)
    ensures ':' !in r
    ensures |r| <= |raw|
    ensures ':' !in raw && !EndsWithIgnoringCase(raw, ".P") && !EndsWithIgnoringCase(raw, ".PERP") ==> r == raw
  {
    var field := if ':' in raw then Split(raw, ':')[1] else raw;
    assert |field| <= |raw| by {
      if ':' in raw {
        SplitJoin(raw, ':');
        FieldNoLonger(Split(raw, ':'), 1, ':');
      }
    }
    var r := StripPerpetualSuffix(field);
    assert forall i | 0 <= i < |r| :: r[i] == field[i];
    r
  }

  lemma {:induction false} FieldNoLonger(parts: seq<string>, i: nat, sep: char)
    requires i < |parts|
    ensures |parts[i]| <= |Join(parts, sep)|
  {
    if |parts| > 1 {
      if i > 0 {
        FieldNoLonger(parts[1..], i - 1, sep);
        assert parts[1..][i - 1] == parts[i];
      }
    }
  }

  lemma StripMarker(base: string, suffix: string)
    requires PerpetualMarker(suffix)
    ensures StripPerpetualSuffix(base + suffix) == base
  {
  }

  lemma SecondField(exchange: string, rest: string)
    requires ':' !in exchange && ':' !in rest
    ensures ':' in exchange + ":" + rest
    ensures Split(exchange + ":" + rest, ':')[1] == rest
  {
    var raw := exchange + ":" + rest;
    assert raw == exchange + [':'] + rest;
    assert raw[|exchange|] == ':';
    SplitAtFirst(exchange, rest, ':');
  }

  /** "BINANCE:BTCUSDT.P" and the like come back as the bare symbol. */
  lemma NormalizeTickerRoundTrip(exchange: string, base: string, suffix: string)
    requires ':' !in exchange && ':' !in base && ':' !in suffix
    requires PerpetualMarker(suffix)
    ensures NormalizeTicker(exchange + ":" + base + suffix) == base
  {
    assert exchange + ":" + base + suffix == exchange + ":" + (base + suffix);
    SecondField(exchange, base + suffix);
    StripMarker(base, suffix);
  }

  /** Only the exchange prefix goes when the symbol carries no marker. */
  lemma NormalizeTickerDropsExchange(exchange: string, base: string)
    requires ':' !in exchange && ':' !in base
    requires !EndsWithIgnoringCase(base, ".P") && !EndsWithIgnoringCase(base, ".PERP")
    ensures NormalizeTicker(exchange + ":" + base) == base
  {
    SecondField(exchange, base);
  }

  /** The second field is kept, not the last one: anything after a second ':' is dropped. */
  lemma NormalizeTickerKeepsSecondField(exchange: string, base: string, tail: string)
    requires ':' !in exchange && ':' !in base
    requires !EndsWithIgnoringCase(base, ".P") && !EndsWithIgnoringCase(base, ".PERP")
    ensures NormalizeTicker(exchange + ":" + base + ":" + tail) == base
  {
    var raw := exchange + ":" + base + ":" + tail;
    assert raw == exchange + [':'] + (base + [':'] + tail);
    assert raw[|exchange|] == ':';
    SplitAtFirst(exchange, base + [':'] + tail, ':');
    SplitAtFirst(base, tail, ':');
  }

  /** TRAILING_STOP_CHECK_INTERVAL_SECONDS as the loop sleeps it; None when the setting is missing or not an integer. */
  function TrailingCheckInterval(configured: Option<int>): (seconds: int)
    ensures seconds >= 10
    ensures configured.Some? && configured.value >= 10 ==> seconds == configured.value
    ensures configured.Some? && configured.value < 10 ==> seconds == 10
    ensures configured.None? ==> seconds == 60
  {
    match configured
    case None => 60
    case Some(n) => if n < 10 then 10 else n
  }
}
