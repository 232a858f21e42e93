/**
 * The parse half of `Game::get_bot_action` (src/game.rs:1082-1111): an action
 * string, as the bot policy or an advisory service produces it, becomes a
 * `GameAction`. The string itself is an input here; where it comes from (a
 * random draw) is not modelled.
 */
module BotParse {
  import opened Wrappers
  import opened Decimal
  import opened Betting

  /** Rust's `char::is_whitespace`: the Unicode White_Space property. */
  predicate IsWhitespace(c: char)
  {
    ('\U{0009}' <= c <= '\U{000D}') || c == '\U{0020}' || c == '\U{0085}' || c == '\U{00A0}'
    || c == '\U{1680}' || ('\U{2000}' <= c <= '\U{200A}') || c == '\U{2028}' || c == '\U{2029}'
    || c == '\U{202F}' || c == '\U{205F}' || c == '\U{3000}'
  }

  predicate StartsWith(s: string, prefix: string)
  {
    |prefix| <= |s| && s[..|prefix|] == prefix
  }

  /** Length of the longest whitespace-free prefix of `s`. */
  function WordLength(s: string): (k: nat)
    ensures k <= |s|
    ensures forall i :: 0 <= i < k ==> !IsWhitespace(s[i])
    ensures k < |s| ==> IsWhitespace(s[k])
  {
    if |s| == 0 || IsWhitespace(s[0]) then 0 else 1 + WordLength(s[1..])
  }

  /** `str::split_whitespace`: the maximal whitespace-free runs of `s`, in order. */
  function SplitWhitespace(s: string): (words: seq<string>)
    ensures forall w :: w in words ==> |w| > 0 && forall i :: 0 <= i < |w| ==> !IsWhitespace(w[i])
    decreases |s|
  {
    if |s| == 0 then []
    else if IsWhitespace(s[0]) then SplitWhitespace(s[1..])
    else
      var k := WordLength(s);
      [s[..k]] + SplitWhitespace(s[k..])
  }

  /** `s` with all whitespace removed. */
  function Squeeze(s: string): string
  {
    if |s| == 0 then "" else (if IsWhitespace(s[0]) then "" else [s[0]]) + Squeeze(s[1..])
  }

  function Concat(words: seq<string>): string
  {
    if |words| == 0 then "" else words[0] + Concat(words[1..])
  }

  /** The words hold exactly the non-whitespace characters of the input, in order. */
  lemma {:induction false} SplitKeepsText(s: string)
    ensures Concat(SplitWhitespace(s)) == Squeeze(s)
    decreases |s|
  {
    if |s| == 0 {
    } else if IsWhitespace(s[0]) {
      SplitKeepsText(s[1..]);
    } else {
      var k := WordLength(s);
      SplitKeepsText(s[k..]);
      SqueezeWord(s, k);
      assert SplitWhitespace(s)[1..] == SplitWhitespace(s[k..]);
    }
  }

  /** Squeezing a string whose first `k` characters are not whitespace keeps them in front. */
  lemma {:induction false} SqueezeWord(s: string, k: nat)
    requires k <= |s|
    requires forall i :: 0 <= i < k ==> !IsWhitespace(s[i])
    ensures Squeeze(s) == s[..k] + Squeeze(s[k..])
    decreases k
  {
    if k > 0 {
      SqueezeWord(s[1..], k - 1);
      assert s[1..][..k - 1] == s[1..k];
      assert s[1..][k - 1..] == s[k..];
      assert [s[0]] + s[1..k] == s[..k];
    }
  }

  /** `str::parse::<u32>`: an optional `+`, then one or more ASCII digits, at most `u32::MAX`. */
  function ParseU32(s: string): (r: Option<nat>)
    ensures r.Some? ==> r.value < U32_LIMIT
  {
    var digits := if |s| >= 2 && s[0] == '+' then s[1..] else s;
    if |digits| == 0 || !AllDigits(digits) then None
    else if DigitsValue(digits) >= U32_LIMIT then None
    else Some(DigitsValue(digits))
  }

  /** Every `u32` the bot policy formats parses back to itself. */
  lemma ParseFormatted(x: nat)
    requires x < U32_LIMIT
    ensures ParseU32(ToDecimal(x)) == Some(x)
  {
    ToDecimalRoundTrip(x);
  }

  /** The parse of src/game.rs:1087-1110; the result is never an error. */
  function ParseBotAction(s: string, minBet: nat): (r: Result<GameAction, string>)
    ensures r.Ok?
    ensures StartsWith(s, "fold") ==> r.value == Fold
    ensures !StartsWith(s, "fold") && StartsWith(s, "call") ==> r.value == Call
    ensures !StartsWith(s, "fold") && !StartsWith(s, "call") && StartsWith(s, "check") ==> r.value == Check
    ensures (!StartsWith(s, "fold") && !StartsWith(s, "call") && !StartsWith(s, "check") && !StartsWith(s, "raise"))
            ==> r.value == Check
    ensures r.value.Raise? <==> !StartsWith(s, "fold") && !StartsWith(s, "call") && !StartsWith(s, "check")
                                && StartsWith(s, "raise")
    ensures r.value.Raise? ==>
              var words := SplitWhitespace(s);
              if |words| >= 2 && ParseU32(words[1]).Some? then r.value.amount == ParseU32(words[1]).value
              else r.value.amount == minBet
  {
    if StartsWith(s, "fold") then Ok(Fold)
    else if StartsWith(s, "call") then Ok(Call)
    else if StartsWith(s, "check") then Ok(Check)
    else if StartsWith(s, "raise") then
      var parts := SplitWhitespace(s);
      if |parts| >= 2 then
        match ParseU32(parts[1])
        case Some(amount) => Ok(Raise(amount))
        case None => Ok(Raise(minBet))
      else Ok(Raise(minBet))
    else Ok(Check)
  }

  /** A word followed by whitespace or the end splits off as the first word. */
  lemma SplitWordThen(w: string, rest: string)
    requires |w| > 0 && forall i :: 0 <= i < |w| ==> !IsWhitespace(w[i])
    requires |rest| == 0 || IsWhitespace(rest[0])
    ensures SplitWhitespace(w + rest) == [w] + SplitWhitespace(rest)
  {
    var s := w + rest;
    WordLengthOfWord(w, rest);
    assert !IsWhitespace(s[0]);
    assert s[..|w|] == w;
    assert s[|w|..] == rest;
  }

  lemma {:induction false} WordLengthOfWord(w: string, rest: string)
    requires forall i :: 0 <= i < |w| ==> !IsWhitespace(w[i])
    requires |rest| == 0 || IsWhitespace(rest[0])
    ensures WordLength(w + rest) == |w|
    decreases |w|
  {
    if |w| > 0 {
      assert (w + rest)[1..] == w[1..] + rest;
      WordLengthOfWord(w[1..], rest);
    } else {
      assert w + rest == rest;
    }
  }

  lemma RaiseIsWord()
    ensures forall i :: 0 <= i < |"raise"| ==> !IsWhitespace("raise"[i])
  {
    var w := "raise";
    assert w[0] == 'r' && w[1] == 'a' && w[2] == 'i' && w[3] == 's' && w[4] == 'e';
  }

  lemma DigitsAreWord(d: string)
    requires AllDigits(d)
    ensures forall i :: 0 <= i < |d| ==> !IsWhitespace(d[i])
  {
  }

  lemma SplitSkipsSpace(t: string)
    ensures SplitWhitespace(" " + t) == SplitWhitespace(t)
  {
    assert (" " + t)[0] == ' ';
    assert (" " + t)[1..] == t;
  }

  /** `"raise N"` splits into `"raise"` and the digits of N. */
  lemma SplitRaise(d: string)
    requires |d| > 0 && AllDigits(d)
    ensures SplitWhitespace("raise " + d) == ["raise", d]
  {
    RaiseIsWord();
    DigitsAreWord(d);
    var rest := " " + d;
    assert "raise " + d == "raise" + rest;
    assert rest[0] == ' ';
    SplitWordThen("raise", rest);
    SplitSkipsSpace(d);
    assert d + "" == d;
    SplitWordThen(d, "");
  }

  /** The strings the bot policy produces (src/game.rs:1171-1219) parse to the intended actions. */
  lemma GeneratedActionsParse(x: nat, minBet: nat)
    requires x < U32_LIMIT
    ensures ParseBotAction("fold", minBet) == Ok(Fold)
    ensures ParseBotAction("call", minBet) == Ok(Call)
    ensures ParseBotAction("check", minBet) == Ok(Check)
    ensures ParseBotAction("raise " + ToDecimal(x), minBet) == Ok(Raise(x))
  {
    KeywordsParse(minBet);
    RaiseParses(x, minBet);
  }

  /** "fold", "call" and "check" parse to their actions. */
  lemma KeywordsParse(minBet: nat)
    ensures ParseBotAction("fold", minBet) == Ok(Fold)
    ensures ParseBotAction("call", minBet) == Ok(Call)
    ensures ParseBotAction("check", minBet) == Ok(Check)
  {
    assert StartsWith("fold", "fold") by { assert "fold"[..4] == "fold"; }
    assert !StartsWith("call", "fold") && StartsWith("call", "call") by {
      assert "call"[0] == 'c';
      assert "call"[..4] == "call";
    }
    assert !StartsWith("check", "fold") && !StartsWith("check", "call") && StartsWith("check", "check") by {
      assert "check"[1] == 'h';
      assert "check"[..5] == "check";
    }
  }

  /** "raise N" parses to a raise of N. */
  lemma RaiseParses(x: nat, minBet: nat)
    requires x < U32_LIMIT
    ensures ParseBotAction("raise " + ToDecimal(x), minBet) == Ok(Raise(x))
  {
    var d := ToDecimal(x);
    var s := "raise " + d;
    assert StartsWith(s, "raise") by { assert s[..5] == "raise"; }
    assert !StartsWith(s, "fold") && !StartsWith(s, "call") && !StartsWith(s, "check") by {
      assert s[0] == 'r';
    }
    SplitRaise(d);
    ParseFormatted(x);
  }
}
