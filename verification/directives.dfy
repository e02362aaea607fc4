/** The inline directives of a prompt (`--ar W:H`, `--q n`, `--seed n`,
    `--chaos n`, `--s n`, `--no text`) and `parseMidjourneyParams`, which turns
    them into generation options and removes them from the prompt text.

    Each directive is recognised as its regular expression would: the first
    (leftmost) match in the text, the keyword compared case-insensitively, then
    one or more whitespace characters, then the value. */
module Directives {
  import opened Values
  import opened Text

  datatype Directive = AspectRatio | Quality | Seed | Chaos | Stylize | Exclude

  function Keyword(d: Directive): string
  {
    match d
    case AspectRatio => "ar"
    case Quality => "q"
    case Seed => "seed"
    case Chaos => "chaos"
    case Stylize => "s"
    case Exclude => "no"
  }

  /** The order in which the parser looks for the directives. */
  const Order: seq<Directive> := [AspectRatio, Quality, Seed, Chaos, Stylize, Exclude]

  /** The option keys the parser can set. */
  const OptionKeys: set<string> := {"width", "height", "steps", "seed", "cfg", "negativePrompt"}

  /** A regular-expression match: the matched span `[start, end)` and its
      capture groups (`group2` only for `--ar`, empty otherwise). */
  datatype Hit = Hit(start: nat, end: nat, group1: string, group2: string)

  /** `--` and the keyword, in any letter case, start at `i`. */
  predicate MarkerAt(d: Directive, s: string, i: nat)
  {
    var kw := Keyword(d);
    i + 2 + |kw| <= |s| && s[i] == '-' && s[i + 1] == '-'
    && forall k :: 0 <= k < |kw| ==> Lower(s[i + 2 + k]) == kw[k]
  }

  /** The groups of a match are non-empty, and the numeric ones are digit
      runs. */
  predicate WellFormed(d: Directive, h: Hit)
  {
    && |h.group1| > 0
    && (d != Exclude ==> AllDigits(h.group1))
    && (d == AspectRatio ==> |h.group2| > 0 && AllDigits(h.group2))
  }

  /** Where a match of `d` whose marker ends at `p` puts its groups: one or
      more whitespace characters from `p`, then `group1` (for `--ar`, then
      `:` and `group2`), and the match ends right after the last group. A
      number is a whole digit run, not followed by another digit; the `--no`
      text holds no `-` from `p` on and runs up to the next `-` or the end. */
  predicate Placed(d: Directive, s: string, p: nat, h: Hit)
  {
    var a := h.end - |h.group1| - (if d == AspectRatio then |h.group2| + 1 else 0);
    var b := a + |h.group1|;
    && p < a && h.end <= |s|
    && (forall k :: p <= k < a ==> IsSpace(s[k]))
    && h.group1 == s[a..b]
    && (d == AspectRatio ==> s[b] == ':' && h.group2 == s[b + 1..h.end])
    && (d != AspectRatio ==> h.group2 == "")
    && (d != Exclude ==> h.end == |s| || !IsDigit(s[h.end]))
    && (d == Exclude ==> (forall k :: p <= k < h.end ==> s[k] != '-') && (h.end == |s| || s[h.end] == '-'))
  }

  /** The match of directive `d` that starts at `i`, if any:
      `--ar\s+(\d+):(\d+)`, `--q\s+(\d+)`, `--seed\s+(\d+)`, `--chaos\s+(\d+)`,
      `--s\s+(\d+)` or `--no\s+([^-]+)`. The classes `\s`, `\d`, `:` and `-` are
      disjoint, so a greedy run never has to give characters back, except in
      `--no`, where `[^-]+` also accepts whitespace: when nothing but whitespace
      follows the marker up to a `-` or the end, the last whitespace character
      becomes the group. */
  function MatchAt(d: Directive, s: string, i: nat): (r: Option<Hit>)
    ensures r.Some? ==> r.value.start == i && i < r.value.end <= |s|
    ensures r.Some? ==> MarkerAt(d, s, i) && WellFormed(d, r.value)
  {
    if !MarkerAt(d, s, i) then None else MatchAfter(d, s, i, i + 2 + |Keyword(d)|)
  }

  /** The rest of the match of `d` at `i`, once its marker has been read up to
      `p`: a whitespace run, then the value. */
  function MatchAfter(d: Directive, s: string, i: nat, p: nat): (r: Option<Hit>)
    requires i < p <= |s|
    ensures r.Some? ==> r.value.start == i && i < r.value.end <= |s| && WellFormed(d, r.value)
  {
    var q := SpaceEnd(s, p);
    if q == p then None
    else if d == Exclude then TextAfter(s, i, p, q)
    else NumberAfter(d, s, i, p, q)
  }

  /** `[^-]+` after the whitespace run `[p, q)` of `--no`: the greedy run
      gives its last character back when nothing but a `-` or the end
      follows it. */
  function TextAfter(s: string, i: nat, p: nat, q: nat): (r: Option<Hit>)
    requires i < p < q <= |s|
    requires forall k :: p <= k < q ==> IsSpace(s[k])
    requires q == |s| || !IsSpace(s[q])
    ensures r.Some? ==> r.value.start == i && i < r.value.end <= |s| && WellFormed(Exclude, r.value)
  {
    var g := if q < |s| && s[q] != '-' then q else q - 1;
    if g == p then None
    else
      assert g < q ==> IsSpace(s[g]);
      var e := DashEnd(s, g);
      Some(Hit(i, e, s[g..e], ""))
  }

  /** Whitespace from `p` to `g`, then `-`-free text up to a `-` or the end,
      is laid out as a `--no` match. */
  lemma TextPlaced(s: string, i: nat, p: nat, g: nat, e: nat)
    requires p < g < e <= |s|
    requires forall k :: p <= k < g ==> IsSpace(s[k])
    requires forall k :: g <= k < e ==> s[k] != '-'
    requires e == |s| || s[e] == '-'
    ensures Placed(Exclude, s, p, Hit(i, e, s[g..e], ""))
  {
    forall k | p <= k < g
      ensures s[k] != '-'
    {
      assert IsSpace(s[k]);
    }
  }

  /** The digit groups after the whitespace run `[p, q)` of a numeric
      directive: `(\d+)`, or `(\d+):(\d+)` for `--ar`. */
  function NumberAfter(d: Directive, s: string, i: nat, p: nat, q: nat): (r: Option<Hit>)
    requires d != Exclude && i < p < q <= |s|
    requires forall k :: p <= k < q ==> IsSpace(s[k])
    ensures r.Some? ==> r.value.start == i && i < r.value.end <= |s| && WellFormed(d, r.value)
  {
    var r := DigitEnd(s, q);
    if r == q then None
    else if d != AspectRatio then Some(Hit(i, r, s[q..r], ""))
    else if r < |s| && s[r] == ':' && DigitEnd(s, r + 1) > r + 1 then
      Some(Hit(i, DigitEnd(s, r + 1), s[q..r], s[r + 1..DigitEnd(s, r + 1)]))
    else None
  }

  /** The matcher is sound: a match it finds at `i` has its marker there and
      its groups where the regular expression puts them. */
  lemma MatchPlaced(d: Directive, s: string, i: nat)
    ensures MatchAt(d, s, i).Some? ==> Placed(d, s, i + 2 + |Keyword(d)|, MatchAt(d, s, i).value)
  {
    if MarkerAt(d, s, i) {
      var p := i + 2 + |Keyword(d)|;
      MarkerThenRest(d, s, i);
      var q := SpaceEnd(s, p);
      if q > p {
        if d == Exclude {
          assert MatchAfter(d, s, i, p) == TextAfter(s, i, p, q);
          TextAfterPlaced(s, i, p, q);
        } else {
          NumberAfterSpaces(d, s, i, p, q);
          NumberAfterPlaced(d, s, i, p, q);
        }
      }
    }
  }

  lemma TextAfterPlaced(s: string, i: nat, p: nat, q: nat)
    requires i < p < q <= |s|
    requires forall k :: p <= k < q ==> IsSpace(s[k])
    requires q == |s| || !IsSpace(s[q])
    ensures TextAfter(s, i, p, q).Some? ==> Placed(Exclude, s, p, TextAfter(s, i, p, q).value)
  {
    var g := if q < |s| && s[q] != '-' then q else q - 1;
    if g != p {
      assert g < q ==> IsSpace(s[g]);
      TextPlaced(s, i, p, g, DashEnd(s, g));
    }
  }

  /** The text a `--no` match captures, trimmed, is all of the match after
      `--no`, trimmed. */
  lemma MatchText(d: Directive, s: string, i: nat)
    ensures var r := MatchAt(d, s, i); var p := i + 2 + |Keyword(d)|;
      r.Some? ==> p < r.value.end <= |s| && (d == Exclude ==> Trim(r.value.group1) == Trim(s[p..r.value.end]))
  {
    if MarkerAt(d, s, i) {
      var p := i + 2 + |Keyword(d)|;
      MarkerThenRest(d, s, i);
      var q := SpaceEnd(s, p);
      if q > p {
        if d == Exclude {
          assert MatchAfter(d, s, i, p) == TextAfter(s, i, p, q);
          TextAfterText(s, i, p, q);
        } else {
          NumberAfterSpaces(d, s, i, p, q);
          NumberAfterPlaced(d, s, i, p, q);
        }
      }
    }
  }

  lemma TextAfterText(s: string, i: nat, p: nat, q: nat)
    requires i < p < q <= |s|
    requires forall k :: p <= k < q ==> IsSpace(s[k])
    requires q == |s| || !IsSpace(s[q])
    ensures var r := TextAfter(s, i, p, q);
      r.Some? ==> p < r.value.end && Trim(r.value.group1) == Trim(s[p..r.value.end])
  {
    var g := if q < |s| && s[q] != '-' then q else q - 1;
    if g != p {
      assert g < q ==> IsSpace(s[g]);
      var e := DashEnd(s, g);
      assert TextAfter(s, i, p, q) == Some(Hit(i, e, s[g..e], ""));
      assert forall k :: p <= k < g ==> IsSpace(s[k]);
      NegativeText(s, p, g, e, s[g..e]);
    }
  }

  lemma NumberAfterPlaced(d: Directive, s: string, i: nat, p: nat, q: nat)
    requires d != Exclude && i < p < q <= |s|
    requires forall k :: p <= k < q ==> IsSpace(s[k])
    ensures NumberAfter(d, s, i, p, q).Some? ==> Placed(d, s, p, NumberAfter(d, s, i, p, q).value)
  {
    var r := DigitEnd(s, q);
    if r > q && d == AspectRatio && r < |s| && s[r] == ':' && DigitEnd(s, r + 1) > r + 1 {
      var e := DigitEnd(s, r + 1);
      var h := Hit(i, e, s[q..r], s[r + 1..e]);
      assert NumberAfter(d, s, i, p, q) == Some(h);
      assert h.end - |h.group1| - |h.group2| - 1 == q;
    }
  }

  /** The matcher misses nothing: a span at `i` laid out as the regular
      expression requires is found, with the same end, and for a numeric
      directive with the same groups. So `MatchAt` gives `None` only when no
      match starts at `i`. */
  lemma MatchAtComplete(d: Directive, s: string, i: nat, h: Hit)
    requires MarkerAt(d, s, i) && h.start == i && WellFormed(d, h)
    requires Placed(d, s, i + 2 + |Keyword(d)|, h)
    ensures MatchAt(d, s, i).Some? && MatchAt(d, s, i).value.end == h.end
    ensures d != Exclude ==> MatchAt(d, s, i) == Some(h)
  {
    var p := i + 2 + |Keyword(d)|;
    MarkerThenRest(d, s, i);
    if d == Exclude {
      TextComplete(s, i, p, h);
    } else {
      NumberComplete(d, s, i, p, h);
    }
  }

  lemma MarkerThenRest(d: Directive, s: string, i: nat)
    requires MarkerAt(d, s, i)
    ensures MatchAt(d, s, i) == MatchAfter(d, s, i, i + 2 + |Keyword(d)|)
  {
  }

  /** The characters of a digit group placed at `a` are digits. */
  lemma GroupDigits(s: string, a: nat, g: string)
    requires a + |g| <= |s| && g == s[a..a + |g|] && AllDigits(g)
    ensures forall k :: a <= k < a + |g| ==> IsDigit(s[k])
  {
    forall k | a <= k < a + |g|
      ensures IsDigit(s[k])
    {
      assert s[k] == g[k - a];
    }
  }

  lemma NumberComplete(d: Directive, s: string, i: nat, p: nat, h: Hit)
    requires d != Exclude && i < p <= |s|
    requires h.start == i && WellFormed(d, h) && Placed(d, s, p, h)
    ensures MatchAfter(d, s, i, p) == Some(h)
  {
    var a := h.end - |h.group1| - (if d == AspectRatio then |h.group2| + 1 else 0);
    var b := a + |h.group1|;
    assert p < a < b <= h.end <= |s|;
    assert h.group1 == s[a..b];
    GroupDigits(s, a, h.group1);
    if d == AspectRatio {
      assert s[b] == ':' && h.group2 == s[b + 1..h.end];
      GroupDigits(s, b + 1, h.group2);
      RatioComplete(s, i, p, a, b, h.end);
    } else {
      SingleComplete(d, s, i, p, a, b);
    }
  }

  lemma NumberAfterSpaces(d: Directive, s: string, i: nat, p: nat, q: nat)
    requires d != Exclude && i < p < q <= |s| && SpaceEnd(s, p) == q
    ensures MatchAfter(d, s, i, p) == NumberAfter(d, s, i, p, q)
  {
  }

  lemma SingleComplete(d: Directive, s: string, i: nat, p: nat, a: nat, b: nat)
    requires d != Exclude && d != AspectRatio && i < p < a < b <= |s|
    requires forall k :: p <= k < a ==> IsSpace(s[k])
    requires forall k :: a <= k < b ==> IsDigit(s[k])
    requires b == |s| || !IsDigit(s[b])
    ensures MatchAfter(d, s, i, p) == Some(Hit(i, b, s[a..b], ""))
  {
    assert IsDigit(s[a]);
    SpaceRun(s, p, a);
    NumberAfterSpaces(d, s, i, p, a);
    DigitRun(s, a, b);
  }

  lemma RatioComplete(s: string, i: nat, p: nat, a: nat, b: nat, e: nat)
    requires i < p < a < b && b + 1 < e <= |s|
    requires forall k :: p <= k < a ==> IsSpace(s[k])
    requires forall k :: a <= k < b ==> IsDigit(s[k])
    requires s[b] == ':'
    requires forall k :: b + 1 <= k < e ==> IsDigit(s[k])
    requires e == |s| || !IsDigit(s[e])
    ensures MatchAfter(AspectRatio, s, i, p) == Some(Hit(i, e, s[a..b], s[b + 1..e]))
  {
    assert IsDigit(s[a]);
    SpaceRun(s, p, a);
    NumberAfterSpaces(AspectRatio, s, i, p, a);
    DigitRun(s, a, b);
    DigitRun(s, b + 1, e);
  }

  lemma TextComplete(s: string, i: nat, p: nat, h: Hit)
    requires i < p <= |s|
    requires h.start == i && WellFormed(Exclude, h) && Placed(Exclude, s, p, h)
    ensures MatchAfter(Exclude, s, i, p).Some?
    ensures MatchAfter(Exclude, s, i, p).value.end == h.end
  {
    var a := h.end - |h.group1|;
    var q := SpaceEnd(s, p);
    assert IsSpace(s[p]);
    assert q <= h.end;
    if q < |s| && s[q] != '-' {
      assert q < h.end;
      DashRun(s, q, h.end);
    } else {
      assert q == |s| || s[q] == '-';
      assert q > p + 1 by {
        if a > p + 1 {
          assert IsSpace(s[p + 1]);
        } else {
          assert a == p + 1 && s[a] != '-';
        }
      }
      DashRun(s, q - 1, h.end);
    }
  }

  /** The first position in `[from, last]` at which `f` finds a match. */
  function Scan(f: nat -> Option<Hit>, from: nat, last: nat): (r: Option<nat>)
    requires from <= last
    ensures r.Some? ==> from <= r.value <= last && f(r.value).Some?
    decreases last - from
  {
    if f(from).Some? then Some(from)
    else if from == last then None
    else Scan(f, from + 1, last)
  }

  /** The position `Scan` finds is the leftmost one: `f` finds nothing between
      `from` and it, and when it finds none, `f` finds nothing in the whole
      range. */
  lemma {:induction false} ScanLeftmost(f: nat -> Option<Hit>, from: nat, last: nat)
    requires from <= last
    ensures var r := Scan(f, from, last);
      && (r.Some? ==> forall k :: from <= k < r.value ==> f(k).None?)
      && (r.None? ==> forall k :: from <= k <= last ==> f(k).None?)
    decreases last - from
  {
    if f(from).None? && from < last {
      ScanLeftmost(f, from + 1, last);
    }
  }

  /** The matcher of `d` over `s`, position by position. */
  function Matcher(d: Directive, s: string): nat -> Option<Hit>
  {
    (k: nat) => MatchAt(d, s, k)
  }

  /** The leftmost match of `d` that starts at or after `from`. */
  function Search(d: Directive, s: string, from: nat): (r: Option<Hit>)
    requires from <= |s|
    ensures r.Some? ==> from <= r.value.start && MatchAt(d, s, r.value.start) == r
  {
    match Scan(Matcher(d, s), from, |s|)
    case None => None
    case Some(i) => MatchAt(d, s, i)
  }

  /** The match `Search` finds is the leftmost one: no match starts between
      `from` and it, and when it finds none, no match starts at or after
      `from`. */
  lemma SearchLeftmost(d: Directive, s: string, from: nat)
    requires from <= |s|
    ensures var r := Search(d, s, from);
      && (r.Some? ==> forall k :: from <= k < r.value.start ==> MatchAt(d, s, k).None?)
      && (r.None? ==> forall k :: from <= k <= |s| ==> MatchAt(d, s, k).None?)
  {
    var f := Matcher(d, s);
    ScanLeftmost(f, from, |s|);
    forall k: nat
      ensures f(k) == MatchAt(d, s, k)
    {
    }
    var i := Scan(f, from, |s|);
    if i.Some? {
      assert Search(d, s, from).value.start == i.value;
    }
  }

  /** `s.match(re)`: the first match of `d` in `s`. */
  function First(d: Directive, s: string): (r: Option<Hit>)
    ensures r.Some? ==> r.value.end <= |s| && WellFormed(d, r.value)
  {
    Search(d, s, 0)
  }

  /** `s.replace(re, '')`: `s` without its first match of `d`. */
  function Strip(d: Directive, s: string): (r: string)
    ensures First(d, s).None? ==> r == s
    ensures First(d, s).Some? ==> |r| < |s|
  {
    match First(d, s)
    case None => s
    case Some(h) => s[..h.start] + s[h.end..]
  }

  /** `Strip` cuts out exactly the span of the first match: the text before
      it and the text after it are kept, in order. */
  lemma StripSpan(d: Directive, s: string)
    requires First(d, s).Some?
    ensures var h := First(d, s).value; var r := Strip(d, s);
      && h.start < h.end <= |s|
      && |r| == |s| - (h.end - h.start)
      && r[..h.start] == s[..h.start]
      && r[h.start..] == s[h.end..]
  {
    var h := First(d, s).value;
    assert MatchAt(d, s, h.start) == Some(h);
  }

  /** `--ar W:H`: the ratio W/H decides which side is 1024. With H = 0 the
      ratio is Infinity (height `Math.round(1024 / Infinity)` = 0); with
      W = H = 0 it is NaN, which is not `>= 1`, so the width is NaN. */
  function AspectSize(w: nat, h: nat): (size: (Json, Json))
  {
    if w == 0 && h == 0 then (NaN, Num(1024.0))
    else if w >= h then (Num(1024.0), Num(RoundDiv(1024 * h, w) as real))
    else (Num(RoundDiv(1024 * w, h) as real), Num(1024.0))
  }

  /** `--q n`: ten steps per quality unit, clamped to [10, 50]. */
  function QualitySteps(q: nat): (steps: int)
    ensures 10 <= steps <= 50
    ensures 1 <= q <= 5 ==> steps == 10 * q
  {
    Clamp(q * 10, 10, 50)
  }

  /** `--s n`: `Math.round(20 + n / 1000 * 30)`, the integer nearest to
      20 + 3n/100; from 20 steps up, 50 at n = 1000, unbounded above. */
  function StylizeSteps(s: nat): (steps: int)
    ensures -100 < 2 * (100 * steps - (2000 + 3 * s)) <= 100
    ensures 20 <= steps && (s <= 1000 ==> steps <= 50)
  {
    RoundDiv(2000 + 3 * s, 100)
  }

  /** `--chaos n`: `7.5 + n / 100 * 5`, from 7.5 at 0 to 12.5 at 100. */
  function ChaosCfg(c: nat): (cfg: real)
    ensures cfg == 7.5 + (c as real) / 20.0
    ensures 7.5 <= cfg && (c <= 100 ==> cfg <= 12.5)
  {
    7.5 + (c as real) / 100.0 * 5.0
  }

  /** The options one match of `d` sets (`--ar` sets two). */
  function Contribution(d: Directive, h: Hit): (options: map<string, Json>)
    requires WellFormed(d, h)
  {
    match d
    case AspectRatio =>
      var size := AspectSize(DecimalValue(h.group1), DecimalValue(h.group2));
      map["width" := size.0, "height" := size.1]
    case Quality => map["steps" := Num(QualitySteps(DecimalValue(h.group1)) as real)]
    case Seed => map["seed" := Num(DecimalValue(h.group1) as real)]
    case Chaos => map["cfg" := Num(ChaosCfg(DecimalValue(h.group1)))]
    case Stylize => map["steps" := Num(StylizeSteps(DecimalValue(h.group1)) as real)]
    case Exclude => map["negativePrompt" := Str(Trim(h.group1))]
  }

  /** The options a search result of `d` contributes: none without a match. */
  function FoundOf(d: Directive, r: Option<Hit>): map<string, Json>
    requires r.Some? ==> WellFormed(d, r.value)
  {
    match r
    case None => map[]
    case Some(h) => Contribution(d, h)
  }

  /** The options directive `d` contributes to the result for prompt `full`. */
  function Found(d: Directive, full: string): map<string, Json>
  {
    FoundOf(d, First(d, full))
  }

  /** The options the directives of `full` give, all read from `full` itself,
      starting from no options, later directives in the parser's order
      overriding earlier ones. */
  function ParsedOptions(full: string): map<string, Json>
  {
    map[] + Found(AspectRatio, full) + Found(Quality, full) + Found(Seed, full)
    + Found(Chaos, full) + Found(Stylize, full) + Found(Exclude, full)
  }

  /** One removal step: when `d` occurs in the original prompt `full`, its
      first match in the current text `cur` is removed and the result trimmed
      (the current text may no longer hold a match, and then it is only
      trimmed); otherwise the current text is left as it is. */
  function CleanStep(d: Directive, full: string, cur: string): string
  {
    if First(d, full).Some? then Trim(Strip(d, cur)) else cur
  }

  function CleanFrom(ds: seq<Directive>, full: string, cur: string): string
    decreases |ds|
  {
    if ds == [] then cur else CleanFrom(ds[1..], full, CleanStep(ds[0], full, cur))
  }

  /** The prompt text `parseMidjourneyParams` returns. */
  function Cleaned(full: string): string
  {
    CleanFrom(Order, full, full)
  }

  lemma CleanedUnfolds(full: string)
    ensures Cleaned(full) ==
      CleanStep(Exclude, full, CleanStep(Stylize, full, CleanStep(Chaos, full,
        CleanStep(Seed, full, CleanStep(Quality, full, CleanStep(AspectRatio, full, full))))))
  {
    assert Order[1..] == [Quality, Seed, Chaos, Stylize, Exclude];
    assert Order[1..][1..] == [Seed, Chaos, Stylize, Exclude];
    assert Order[1..][1..][1..] == [Chaos, Stylize, Exclude];
    assert Order[1..][1..][1..][1..] == [Stylize, Exclude];
    assert Order[1..][1..][1..][1..][1..] == [Exclude];
  }

  /** One block of `parseMidjourneyParams`: when the directive occurs in the
      original prompt, set the options its value gives, then remove its first
      match from the current prompt and trim. */
  method ApplyDirective(d: Directive, fullPrompt: string, prompt: string, options: map<string, Json>)
    returns (prompt': string, options': map<string, Json>)
    ensures prompt' == CleanStep(d, fullPrompt, prompt)
    ensures options' == options + Found(d, fullPrompt)
  {
    prompt', options' := prompt, options;
    var hit := First(d, fullPrompt);
    if hit.Some? {
      options' := options' + Found(d, fullPrompt);
      prompt' := Trim(Strip(d, prompt'));
    } else {
      assert Found(d, fullPrompt) == map[];
      UnionEmpty(options);
    }
  }

  lemma UnionEmpty(m: map<string, Json>)
    ensures m + map[] == m
  {
  }

  /** `parseMidjourneyParams`: the options of every directive found in the
      prompt, and the prompt with the directives removed one after the other,
      in the fixed order `--ar`, `--q`, `--seed`, `--chaos`, `--s`, `--no`. */
  method ParseMidjourneyParams(fullPrompt: string) returns (prompt: string, options: map<string, Json>)
    ensures prompt == Cleaned(fullPrompt)
    ensures options == ParsedOptions(fullPrompt)
  {
    prompt, options := fullPrompt, map[];
    prompt, options := ApplyDirective(AspectRatio, fullPrompt, prompt, options);
    prompt, options := ApplyDirective(Quality, fullPrompt, prompt, options);
    prompt, options := ApplyDirective(Seed, fullPrompt, prompt, options);
    prompt, options := ApplyDirective(Chaos, fullPrompt, prompt, options);
    prompt, options := ApplyDirective(Stylize, fullPrompt, prompt, options);
    prompt, options := ApplyDirective(Exclude, fullPrompt, prompt, options);
    CleanedUnfolds(fullPrompt);
  }

  lemma {:induction false} CleanFromIdle(ds: seq<Directive>, full: string, cur: string)
    requires forall k :: 0 <= k < |ds| ==> First(ds[k], full).None?
    ensures CleanFrom(ds, full, cur) == cur
    decreases |ds|
  {
    if ds != [] {
      CleanFromIdle(ds[1..], full, cur);
    }
  }

  /** With no directive in it, the prompt comes back exactly as given (not
      even trimmed) and no option is set. */
  lemma NoDirectiveNoChange(full: string)
    requires forall d: Directive :: First(d, full).None?
    ensures Cleaned(full) == full
    ensures ParsedOptions(full) == map[]
  {
    CleanFromIdle(Order, full, full);
  }

  lemma {:induction false} CleanFromShrinks(ds: seq<Directive>, full: string, cur: string)
    ensures |CleanFrom(ds, full, cur)| <= |cur|
    ensures Trimmed(cur) ==> Trimmed(CleanFrom(ds, full, cur))
    ensures (exists k :: 0 <= k < |ds| && First(ds[k], full).Some?) ==> Trimmed(CleanFrom(ds, full, cur))
    ensures cur == full && (exists k :: 0 <= k < |ds| && First(ds[k], full).Some?) ==>
      |CleanFrom(ds, full, cur)| < |full|
    decreases |ds|
  {
    if ds != [] {
      var next := CleanStep(ds[0], full, cur);
      CleanFromShrinks(ds[1..], full, next);
      if First(ds[0], full).None? {
        forall k | 0 <= k < |ds| && First(ds[k], full).Some?
          ensures 1 <= k && First(ds[1..][k - 1], full).Some?
        {
        }
      }
    }
  }

  /** Once any directive is found, the returned prompt is strictly shorter
      than the input and has no whitespace at either end. */
  lemma DirectivesShortenPrompt(full: string, d: Directive)
    requires First(d, full).Some?
    ensures |Cleaned(full)| < |full|
    ensures Trimmed(Cleaned(full))
  {
    var k := match d
      case AspectRatio => 0 case Quality => 1 case Seed => 2
      case Chaos => 3 case Stylize => 4 case Exclude => 5;
    assert Order[k] == d;
    CleanFromShrinks(Order, full, full);
  }

  /** The option keys one directive sets when it occurs. */
  function KeysOf(d: Directive): (keys: set<string>)
    ensures keys <= OptionKeys && |keys| > 0
  {
    match d
    case AspectRatio => {"width", "height"}
    case Quality => {"steps"}
    case Seed => {"seed"}
    case Chaos => {"cfg"}
    case Stylize => {"steps"}
    case Exclude => {"negativePrompt"}
  }

  /** A directive sets its keys when it occurs in the prompt and nothing when
      it does not. */
  lemma FoundHas(d: Directive, full: string, k: string)
    ensures k in Found(d, full) <==> First(d, full).Some? && k in KeysOf(d)
  {
  }

  /** A directive sets no key but its own. */
  lemma FoundKeys(d: Directive, full: string)
    ensures Found(d, full).Keys <= KeysOf(d)
  {
  }

  lemma ParsedHas(full: string, k: string)
    ensures k in ParsedOptions(full) <==>
      || (First(AspectRatio, full).Some? && k in KeysOf(AspectRatio))
      || (First(Quality, full).Some? && k in KeysOf(Quality))
      || (First(Seed, full).Some? && k in KeysOf(Seed))
      || (First(Chaos, full).Some? && k in KeysOf(Chaos))
      || (First(Stylize, full).Some? && k in KeysOf(Stylize))
      || (First(Exclude, full).Some? && k in KeysOf(Exclude))
  {
    FoundHas(AspectRatio, full, k);
    FoundHas(Quality, full, k);
    FoundHas(Seed, full, k);
    FoundHas(Chaos, full, k);
    FoundHas(Stylize, full, k);
    FoundHas(Exclude, full, k);
  }

  /** The parser sets only keys the workflow generator knows. */
  lemma ParsedOptionsKnown(full: string)
    ensures ParsedOptions(full).Keys <= OptionKeys
  {
    forall k | k in ParsedOptions(full)
      ensures k in OptionKeys
    {
      ParsedHas(full, k);
    }
  }

  /** `--ar` alone sets the image size. */
  lemma ParsedSizeKeys(full: string)
    ensures "width" in ParsedOptions(full) <==> First(AspectRatio, full).Some?
    ensures "height" in ParsedOptions(full) <==> First(AspectRatio, full).Some?
  {
    assert forall d :: d != AspectRatio ==> "width" !in KeysOf(d) && "height" !in KeysOf(d);
    assert "width" in KeysOf(AspectRatio) && "height" in KeysOf(AspectRatio);
    ParsedHas(full, "width");
    ParsedHas(full, "height");
  }

  /** `--q` and `--s` alone set the step count. */
  lemma ParsedStepsKey(full: string)
    ensures "steps" in ParsedOptions(full) <==> First(Quality, full).Some? || First(Stylize, full).Some?
  {
    assert "steps" !in KeysOf(AspectRatio) && "steps" in KeysOf(Quality) && "steps" !in KeysOf(Seed)
      && "steps" !in KeysOf(Chaos) && "steps" in KeysOf(Stylize) && "steps" !in KeysOf(Exclude);
    ParsedHas(full, "steps");
  }

  /** `--seed`, `--chaos` and `--no` alone set the seed, the guidance scale
      and the negative prompt. */
  lemma ParsedScalarKeys(full: string)
    ensures "seed" in ParsedOptions(full) <==> First(Seed, full).Some?
    ensures "cfg" in ParsedOptions(full) <==> First(Chaos, full).Some?
    ensures "negativePrompt" in ParsedOptions(full) <==> First(Exclude, full).Some?
  {
    assert forall d :: d != Seed ==> "seed" !in KeysOf(d);
    assert forall d :: d != Chaos ==> "cfg" !in KeysOf(d);
    assert forall d :: d != Exclude ==> "negativePrompt" !in KeysOf(d);
    assert "seed" in KeysOf(Seed) && "cfg" in KeysOf(Chaos) && "negativePrompt" in KeysOf(Exclude);
    ParsedHas(full, "seed");
    ParsedHas(full, "cfg");
    ParsedHas(full, "negativePrompt");
  }

  /** In a chain of six unions, a key takes its value from the last map that
      holds it. */
  lemma LastHolder(m0: map<string, Json>, m1: map<string, Json>, m2: map<string, Json>,
                   m3: map<string, Json>, m4: map<string, Json>, m5: map<string, Json>, k: string)
    ensures var all := map[] + m0 + m1 + m2 + m3 + m4 + m5;
      && (k in m5 ==> k in all && all[k] == m5[k])
      && (k !in m5 && k in m4 ==> k in all && all[k] == m4[k])
      && (k !in m5 && k !in m4 && k in m3 ==> k in all && all[k] == m3[k])
      && (k !in m5 && k !in m4 && k !in m3 && k in m2 ==> k in all && all[k] == m2[k])
      && (k !in m5 && k !in m4 && k !in m3 && k !in m2 && k in m1 ==> k in all && all[k] == m1[k])
      && (k !in m5 && k !in m4 && k !in m3 && k !in m2 && k !in m1 && k in m0 ==> k in all && all[k] == m0[k])
  {
  }

  /** The first match is a match at its own start: the marker, then the
      whitespace and the groups where the regular expression puts them. */
  lemma FirstPlaced(d: Directive, s: string)
    ensures var r := First(d, s);
      r.Some? ==> MarkerAt(d, s, r.value.start) && Placed(d, s, r.value.start + 2 + |Keyword(d)|, r.value)
  {
    var r := First(d, s);
    if r.Some? {
      HitPlaced(d, s, r.value.start, r.value);
    }
  }

  /** Where a hit `MatchAt` returns sits, for a hit given by name. */
  lemma HitPlaced(d: Directive, s: string, i: nat, h: Hit)
    requires MatchAt(d, s, i) == Some(h)
    ensures MarkerAt(d, s, i) && Placed(d, s, i + 2 + |Keyword(d)|, h)
  {
    MatchPlaced(d, s, i);
  }

  /** A match at the very start is the first match. */
  lemma FirstAtStart(d: Directive, s: string)
    requires MatchAt(d, s, 0).Some?
    ensures First(d, s) == MatchAt(d, s, 0)
  {
    assert Matcher(d, s)(0) == MatchAt(d, s, 0);
  }

  /** In the union of the six directives' options, in the parser's order,
      width and height come from `--ar`, seed from `--seed`, cfg from
      `--chaos` and negativePrompt from `--no`: no later directive sets the
      same key. */
  lemma UnionValues(m0: map<string, Json>, m1: map<string, Json>, m2: map<string, Json>,
                    m3: map<string, Json>, m4: map<string, Json>, m5: map<string, Json>)
    requires m1.Keys <= KeysOf(Quality) && m2.Keys <= KeysOf(Seed) && m3.Keys <= KeysOf(Chaos)
    requires m4.Keys <= KeysOf(Stylize) && m5.Keys <= KeysOf(Exclude)
    ensures var all := map[] + m0 + m1 + m2 + m3 + m4 + m5;
      && ("width" in m0 ==> "width" in all && all["width"] == m0["width"])
      && ("height" in m0 ==> "height" in all && all["height"] == m0["height"])
      && ("seed" in m2 ==> "seed" in all && all["seed"] == m2["seed"])
      && ("cfg" in m3 ==> "cfg" in all && all["cfg"] == m3["cfg"])
      && ("negativePrompt" in m5 ==> "negativePrompt" in all && all["negativePrompt"] == m5["negativePrompt"])
  {
    LastHolder(m0, m1, m2, m3, m4, m5, "width");
    LastHolder(m0, m1, m2, m3, m4, m5, "height");
    LastHolder(m0, m1, m2, m3, m4, m5, "seed");
    LastHolder(m0, m1, m2, m3, m4, m5, "cfg");
    LastHolder(m0, m1, m2, m3, m4, m5, "negativePrompt");
  }

  /** With `--s`, the steps come from the stylize value, whatever `--q`
      says: `--s` is applied after `--q` and overwrites its steps. */
  lemma StylizeDecidesSteps(full: string)
    requires First(Stylize, full).Some?
    ensures "steps" in ParsedOptions(full)
    ensures ParsedOptions(full)["steps"] == Num(StylizeSteps(DecimalValue(First(Stylize, full).value.group1)) as real)
  {
    ResultSteps(First(AspectRatio, full), First(Quality, full), First(Seed, full),
      First(Chaos, full), First(Stylize, full), First(Exclude, full));
  }

  /** With `--q` and no `--s`, the steps are the quality's, so they lie in
      [10, 50]. */
  lemma QualityBoundsSteps(full: string)
    requires First(Quality, full).Some? && First(Stylize, full).None?
    ensures "steps" in ParsedOptions(full)
    ensures ParsedOptions(full)["steps"] == Num(QualitySteps(DecimalValue(First(Quality, full).value.group1)) as real)
    ensures var q := QualitySteps(DecimalValue(First(Quality, full).value.group1)); 10 <= q <= 50
  {
    ResultSteps(First(AspectRatio, full), First(Quality, full), First(Seed, full),
      First(Chaos, full), First(Stylize, full), First(Exclude, full));
  }

  /** The steps in the options of six search results: the stylize value's
      when `--s` matched, otherwise the quality's when `--q` matched. */
  lemma ResultSteps(r0: Option<Hit>, r1: Option<Hit>, r2: Option<Hit>,
                    r3: Option<Hit>, r4: Option<Hit>, r5: Option<Hit>)
    requires r0.Some? ==> WellFormed(AspectRatio, r0.value)
    requires r1.Some? ==> WellFormed(Quality, r1.value)
    requires r2.Some? ==> WellFormed(Seed, r2.value)
    requires r3.Some? ==> WellFormed(Chaos, r3.value)
    requires r4.Some? ==> WellFormed(Stylize, r4.value)
    requires r5.Some? ==> WellFormed(Exclude, r5.value)
    ensures var m := map[] + FoundOf(AspectRatio, r0) + FoundOf(Quality, r1) + FoundOf(Seed, r2)
        + FoundOf(Chaos, r3) + FoundOf(Stylize, r4) + FoundOf(Exclude, r5);
      && (r4.Some? ==> "steps" in m && m["steps"] == Num(StylizeSteps(DecimalValue(r4.value.group1)) as real))
      && (r4.None? && r1.Some? ==>
            "steps" in m && m["steps"] == Num(QualitySteps(DecimalValue(r1.value.group1)) as real))
  {
    var m0, m1, m2 := FoundOf(AspectRatio, r0), FoundOf(Quality, r1), FoundOf(Seed, r2);
    var m3, m4, m5 := FoundOf(Chaos, r3), FoundOf(Stylize, r4), FoundOf(Exclude, r5);
    UnionSteps(m0, m1, m2, m3, m4, m5);
  }

  /** In the union of the six directives' options, steps come from `--s`
      when it set them, otherwise from `--q`. */
  lemma UnionSteps(m0: map<string, Json>, m1: map<string, Json>, m2: map<string, Json>,
                   m3: map<string, Json>, m4: map<string, Json>, m5: map<string, Json>)
    requires m2.Keys <= KeysOf(Seed) && m3.Keys <= KeysOf(Chaos) && m5.Keys <= KeysOf(Exclude)
    ensures var all := map[] + m0 + m1 + m2 + m3 + m4 + m5;
      && ("steps" in m4 ==> "steps" in all && all["steps"] == m4["steps"])
      && ("steps" !in m4 && "steps" in m1 ==> "steps" in all && all["steps"] == m1["steps"])
  {
    LastHolder(m0, m1, m2, m3, m4, m5, "steps");
  }

  /** The same for the options of six search results: each of `--ar`,
      `--seed`, `--chaos` and `--no` that matched gives its own value. */
  lemma ResultValues(r0: Option<Hit>, r1: Option<Hit>, r2: Option<Hit>,
                     r3: Option<Hit>, r4: Option<Hit>, r5: Option<Hit>)
    requires r0.Some? ==> WellFormed(AspectRatio, r0.value)
    requires r1.Some? ==> WellFormed(Quality, r1.value)
    requires r2.Some? ==> WellFormed(Seed, r2.value)
    requires r3.Some? ==> WellFormed(Chaos, r3.value)
    requires r4.Some? ==> WellFormed(Stylize, r4.value)
    requires r5.Some? ==> WellFormed(Exclude, r5.value)
    ensures var m := map[] + FoundOf(AspectRatio, r0) + FoundOf(Quality, r1) + FoundOf(Seed, r2)
        + FoundOf(Chaos, r3) + FoundOf(Stylize, r4) + FoundOf(Exclude, r5);
      && (r0.Some? ==> var size := AspectSize(DecimalValue(r0.value.group1), DecimalValue(r0.value.group2));
            "width" in m && m["width"] == size.0 && "height" in m && m["height"] == size.1)
      && (r2.Some? ==> "seed" in m && m["seed"] == Num(DecimalValue(r2.value.group1) as real))
      && (r3.Some? ==> "cfg" in m && m["cfg"] == Num(ChaosCfg(DecimalValue(r3.value.group1))))
      && (r5.Some? ==> "negativePrompt" in m && m["negativePrompt"] == Str(Trim(r5.value.group1)))
  {
    var m0, m1, m2 := FoundOf(AspectRatio, r0), FoundOf(Quality, r1), FoundOf(Seed, r2);
    var m3, m4, m5 := FoundOf(Chaos, r3), FoundOf(Stylize, r4), FoundOf(Exclude, r5);
    UnionValues(m0, m1, m2, m3, m4, m5);
  }

  /** The values the parser's options hold: `--ar W:H` gives the width and
      height `AspectSize` computes, `--seed n` the seed n, `--chaos n` the
      guidance scale `ChaosCfg` computes, and `--no` its text, trimmed. */
  lemma ParsedValues(full: string)
    ensures var m := ParsedOptions(full);
      && (First(AspectRatio, full).Some? ==> var h := First(AspectRatio, full).value;
            var size := AspectSize(DecimalValue(h.group1), DecimalValue(h.group2));
            "width" in m && m["width"] == size.0 && "height" in m && m["height"] == size.1)
      && (First(Seed, full).Some? ==>
            "seed" in m && m["seed"] == Num(DecimalValue(First(Seed, full).value.group1) as real))
      && (First(Chaos, full).Some? ==>
            "cfg" in m && m["cfg"] == Num(ChaosCfg(DecimalValue(First(Chaos, full).value.group1))))
      && (First(Exclude, full).Some? ==>
            "negativePrompt" in m && m["negativePrompt"] == Str(Trim(First(Exclude, full).value.group1)))
  {
    ResultValues(First(AspectRatio, full), First(Quality, full), First(Seed, full),
      First(Chaos, full), First(Stylize, full), First(Exclude, full));
  }

  /** The text a `--no` match captures, trimmed, is everything after `--no`
      up to the end of the match, trimmed (`FirstPlaced` says where that end
      is). */
  lemma FirstText(d: Directive, full: string)
    requires First(d, full).Some?
    ensures var h := First(d, full).value; var p := h.start + 2 + |Keyword(d)|;
      p < h.end <= |full| && (d == Exclude ==> Trim(h.group1) == Trim(full[p..h.end]))
  {
    var i := First(d, full).value.start;
    assert MatchAt(d, full, i) == First(d, full);
    MatchText(d, full, i);
  }

  /** `--no text` sets the negative prompt to the text after `--no`, trimmed,
      up to the next `-` or the end of the prompt. */
  lemma ParsedNegative(full: string)
    requires First(Exclude, full).Some?
    ensures var h := First(Exclude, full).value;
      && h.start + 4 < h.end <= |full|
      && "negativePrompt" in ParsedOptions(full)
      && ParsedOptions(full)["negativePrompt"] == Str(Trim(full[h.start + 4..h.end]))
  {
    assert |Keyword(Exclude)| == 2;
    FirstText(Exclude, full);
    ParsedValues(full);
  }

  /** Text preceded by whitespace, trimmed, is the whole, trimmed. */
  lemma NegativeText(s: string, p: nat, a: nat, e: nat, g: string)
    requires p <= a <= e <= |s| && g == s[a..e]
    requires forall k :: p <= k < a ==> IsSpace(s[k])
    ensures Trim(g) == Trim(s[p..e])
  {
    var t := s[p..e];
    forall k | 0 <= k < a - p
      ensures IsSpace(t[k])
    {
      assert t[k] == s[p + k];
    }
    TrimSkips(t, a - p);
    assert t[a - p..] == g;
  }

  /** A run of digits that reaches the end of the text ends there. */
  lemma {:induction false} DigitsToEnd(s: string, i: nat)
    requires i <= |s| && AllDigits(s[i..])
    ensures DigitEnd(s, i) == |s|
    decreases |s| - i
  {
    if i < |s| {
      assert IsDigit(s[i]) by {
        assert s[i] == s[i..][0];
      }
      var rest := s[i + 1..];
      forall k | 0 <= k < |rest|
        ensures IsDigit(rest[k])
      {
        assert rest[k] == s[i..][k + 1];
      }
      DigitsToEnd(s, i + 1);
    }
  }

  /** The text `--<keyword> <digits>` starts with the directive's marker,
      followed by one space and the digits. */
  lemma RenderedMarker(d: Directive, n: nat)
    requires d in {Quality, Seed, Chaos, Stylize}
    ensures var s := "--" + Keyword(d) + " " + NatToString(n);
      var p := 2 + |Keyword(d)|;
      && MarkerAt(d, s, 0) && p < |s| && s[p] == ' ' && s[p + 1..] == NatToString(n)
  {
    var s := "--" + Keyword(d) + " " + NatToString(n);
    var kw := Keyword(d);
    forall k | 0 <= k < |kw|
      ensures Lower(s[2 + k]) == kw[k]
    {
      assert s[2 + k] == kw[k];
    }
  }

  /** A numeric directive written as `--<keyword> <digits>` is recognised at
      the start of the text, and its value reads back as the number written. */
  lemma RenderedDirectiveMatches(d: Directive, n: nat)
    requires d in {Quality, Seed, Chaos, Stylize}
    ensures var s := "--" + Keyword(d) + " " + NatToString(n);
      First(d, s) == Some(Hit(0, |s|, NatToString(n), ""))
    ensures DecimalValue(NatToString(n)) == n
  {
    RenderedNumberHit(d, n);
    FirstAtStart(d, "--" + Keyword(d) + " " + NatToString(n));
    DecimalRoundTrip(n);
  }

  /** The same at the level of the matcher at position 0. */
  lemma RenderedNumberHit(d: Directive, n: nat)
    requires d in {Quality, Seed, Chaos, Stylize}
    ensures var s := "--" + Keyword(d) + " " + NatToString(n);
      MatchAt(d, s, 0) == Some(Hit(0, |s|, NatToString(n), ""))
  {
    var digits := NatToString(n);
    var s := "--" + Keyword(d) + " " + digits;
    var p := 2 + |Keyword(d)|;
    RenderedMarker(d, n);
    assert SpaceEnd(s, p) == p + 1 by {
      assert s[p + 1] == digits[0];
    }
    DigitsToEnd(s, p + 1);
    assert s[p + 1..|s|] == digits;
  }

  /** The text `--ar W:H` is recognised at the start of the text, with the
      two numbers as its groups. */
  lemma RenderedRatioMatches(w: nat, h: nat)
    ensures var s := "--ar " + NatToString(w) + ":" + NatToString(h);
      First(AspectRatio, s) == Some(Hit(0, |s|, NatToString(w), NatToString(h)))
  {
    var s := "--ar " + NatToString(w) + ":" + NatToString(h);
    RatioHit(s, NatToString(w), NatToString(h));
    FirstAtStart(AspectRatio, s);
  }

  /** `--ar a:b` for digit runs `a` and `b` is a match at the start. */
  lemma RatioHit(s: string, a: string, b: string)
    requires s == "--ar " + a + ":" + b
    requires |a| > 0 && |b| > 0 && AllDigits(a) && AllDigits(b)
    ensures MatchAt(AspectRatio, s, 0) == Some(Hit(0, |s|, a, b))
  {
    RatioPlaced(s, a, b);
    MatchAtComplete(AspectRatio, s, 0, Hit(0, |s|, a, b));
  }

  /** `--ar a:b` is laid out as an `--ar` match. */
  lemma RatioPlaced(s: string, a: string, b: string)
    requires s == "--ar " + a + ":" + b
    requires |a| > 0 && |b| > 0 && AllDigits(a) && AllDigits(b)
    ensures MarkerAt(AspectRatio, s, 0) && Placed(AspectRatio, s, 4, Hit(0, |s|, a, b))
  {
    assert MarkerAt(AspectRatio, s, 0) by {
      assert s[2] == 'a' && s[3] == 'r';
    }
    assert s[4] == ' ' && s[5 + |a|] == ':';
    assert s[5..5 + |a|] == a && s[6 + |a|..|s|] == b;
  }

  /** `--ar W:H` sets the width and height that `AspectSize` computes from
      W and H. */
  lemma RenderedRatioSize(w: nat, h: nat)
    ensures var s := "--ar " + NatToString(w) + ":" + NatToString(h);
      && "width" in ParsedOptions(s) && ParsedOptions(s)["width"] == AspectSize(w, h).0
      && "height" in ParsedOptions(s) && ParsedOptions(s)["height"] == AspectSize(w, h).1
  {
    RenderedRatioMatches(w, h);
    RatioSize("--ar " + NatToString(w) + ":" + NatToString(h), NatToString(w), NatToString(h));
    DecimalRoundTrip(w);
    DecimalRoundTrip(h);
  }

  /** The size a first `--ar` match with groups `a` and `b` sets. */
  lemma RatioSize(full: string, a: string, b: string)
    requires First(AspectRatio, full) == Some(Hit(0, |full|, a, b))
    ensures AllDigits(a) && AllDigits(b)
    ensures var size := AspectSize(DecimalValue(a), DecimalValue(b));
      && "width" in ParsedOptions(full) && ParsedOptions(full)["width"] == size.0
      && "height" in ParsedOptions(full) && ParsedOptions(full)["height"] == size.1
  {
    ParsedValues(full);
  }

  /** The text `--no t`, for a non-empty `t` without `-`, is recognised as a
      whole. */
  lemma RenderedExcludeMatches(t: string)
    requires |t| > 0 && forall k :: 0 <= k < |t| ==> t[k] != '-'
    ensures var s := "--no " + t;
      First(Exclude, s).Some? && First(Exclude, s).value.start == 0 && First(Exclude, s).value.end == |s|
  {
    var s := "--no " + t;
    var hit := Hit(0, |s|, t, "");
    assert MarkerAt(Exclude, s, 0) by {
      assert s[2] == 'n' && s[3] == 'o';
    }
    assert s[4] == ' ' && s[5..|s|] == t;
    forall k | 4 <= k < |s|
      ensures s[k] != '-'
    {
      if k > 4 {
        assert s[k] == t[k - 5];
      }
    }
    assert Placed(Exclude, s, 4, hit);
    MatchAtComplete(Exclude, s, 0, hit);
    FirstAtStart(Exclude, s);
  }

  /** `--no t` sets the negative prompt to `t`, trimmed. */
  lemma RenderedExcludeText(t: string)
    requires |t| > 0 && forall k :: 0 <= k < |t| ==> t[k] != '-'
    ensures var s := "--no " + t;
      "negativePrompt" in ParsedOptions(s) && ParsedOptions(s)["negativePrompt"] == Str(Trim(t))
  {
    var s := "--no " + t;
    RenderedExcludeMatches(t);
    ParsedNegative(s);
    var h := First(Exclude, s).value;
    AfterNo(s, t, h.start + 4, h.end);
  }

  /** What follows `--no` in `--no t`. */
  lemma AfterNo(s: string, t: string, i: nat, j: nat)
    requires s == "--no " + t && i == 4 && j == |s|
    ensures s[i..j] == " " + t && Trim(s[i..j]) == Trim(t)
  {
    assert s[i..j] == " " + t;
    TrimLeadingSpace(t);
  }

  /** Worked examples of `--ar`, `--q` and `--chaos`. */
  lemma AspectExamples()
    ensures AspectSize(16, 9) == (Num(1024.0), Num(576.0))
    ensures AspectSize(9, 16) == (Num(576.0), Num(1024.0))
    ensures AspectSize(1, 1) == (Num(1024.0), Num(1024.0))
    ensures QualitySteps(3) == 30 && QualitySteps(10) == 50 && QualitySteps(0) == 10
    ensures ChaosCfg(0) == 7.5 && ChaosCfg(100) == 12.5
  {
  }

  lemma ScaleDown(a: int, b: int, w: int)
    requires w > 0 && a * w < b * w
    ensures a < b
  {
  }

  /** Scaling the shorter side `a` of a box whose longer side `b` becomes 1024
      gives a length in [0, 1024]. */
  lemma SideBound(a: int, b: int)
    requires 0 <= a <= b && 0 < b
    ensures 0 <= RoundDiv(1024 * a, b) <= 1024
  {
    var n := RoundDiv(1024 * a, b);
    assert -b < 2 * (n * b - 1024 * a) <= b;
    ScaleDown(-1, 2 * n, b);
    assert 2 * n * b <= 2049 * b;
    ScaleDown(2 * n, 2050, b);
  }

  /** The longer side is 1024 pixels, and the shorter one is the nearest
      integer to the length that keeps the ratio exactly, so never above 1024. */
  lemma AspectSizeKeepsRatio(w: nat, h: nat)
    requires w > 0 || h > 0
    ensures w >= h ==> (AspectSize(w, h).0 == Num(1024.0) &&
      (var n := RoundDiv(1024 * h, w);
       AspectSize(w, h).1 == Num(n as real) && 0 - w < 2 * (n * w - 1024 * h) <= w && 0 <= n <= 1024))
    ensures h > w ==> (AspectSize(w, h).1 == Num(1024.0) &&
      (var n := RoundDiv(1024 * w, h);
       AspectSize(w, h).0 == Num(n as real) && 0 - h < 2 * (n * h - 1024 * w) <= h && 0 <= n <= 1024))
  {
    if w >= h {
      SideBound(h, w);
    } else {
      SideBound(w, h);
    }
  }
}
