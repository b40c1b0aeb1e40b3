/** The pure helpers of the storefront's browser script: clamping, the cart
    quantity stepper and badge bounds, HTML escaping, the banner slider index,
    the flash-sale countdown split and the brand filter for product cards. */
module Script {
  import opened Wrappers
  import opened Text

  function Max(a: int, b: int): int { if a >= b then a else b }
  function Min(a: int, b: int): int { if a <= b then a else b }

  /** `clamp(n, min, max) = Math.max(min, Math.min(max, n))`. */
  function Clamp(n: int, lo: int, hi: int): (r: int)
    ensures r >= lo
    ensures lo <= hi ==> r <= hi
    ensures lo <= n <= hi ==> r == n
    ensures n < lo ==> r == lo
    ensures lo <= hi < n ==> r == hi
  {
    Max(lo, Min(hi, n))
  }

  /** The cart page's +/- buttons: one step up or down, kept within 1..99. */
  function StepQuantity(current: int, increment: bool): (r: int)
    ensures 1 <= r <= 99
    ensures var next := if increment then current + 1 else current - 1;
      && (1 <= next <= 99 ==> r == next)
      && (next < 1 ==> r == 1)
      && (next > 99 ==> r == 99)
  {
    Clamp(current + (if increment then 1 else -1), 1, 99)
  }

  /** The quantity typed into a cart line's input (an empty field reads as 1),
      kept within 1..99. */
  function QuantityFromInput(value: Option<int>): (r: int)
    ensures 1 <= r <= 99
    ensures value.None? ==> r == 1
    ensures value.Some? && 1 <= value.value <= 99 ==> r == value.value
    ensures value.Some? && value.value < 1 ==> r == 1
    ensures value.Some? && value.value > 99 ==> r == 99
  {
    Clamp(value.GetOr(1), 1, 99)
  }

  /** The value `setCartCount` stores and shows on the cart badge. */
  function CartBadgeCount(n: int): (r: int)
    ensures 0 <= r <= 999
    ensures 0 <= n <= 999 ==> r == n
    ensures n < 0 ==> r == 0
    ensures n > 999 ==> r == 999
  {
    Clamp(n, 0, 999)
  }

  // ---------------------------------------------------------------------------
  // JavaScript's remainder operator

  /** `a % b` as JavaScript computes it for a positive divisor: truncating, so
      the result takes the sign of `a`. */
  function JsRem(a: int, b: int): (r: int)
    requires b > 0
    ensures a >= 0 ==> 0 <= r < b
    ensures a < 0 ==> -b < r <= 0
    ensures a >= 0 ==> r == a % b
  {
    if a >= 0 then a % b else -((-a) % b)
  }

  // ---------------------------------------------------------------------------
  // Banner slider

  /** `setBanner(index)`: the new slide index given `slides` slides; with no
      slides nothing changes. */
  function SetBanner(current: int, index: int, slides: nat): (r: int)
    ensures slides == 0 ==> r == current
    ensures slides > 0 && index + slides >= 0 ==> 0 <= r < slides && r == index % slides
    ensures slides > 0 && 0 <= index < slides ==> r == index
  {
    if slides == 0 then current
    else
      ModShift(index, slides);
      JsRem(index + slides, slides)
  }

  /** `JsRem(a, b)` differs from `a` by a multiple of `b`; with its range this
      fixes its value: the remainder of truncating division. */
  lemma JsRemCongruent(a: int, b: int)
    requires b > 0
    ensures (a - JsRem(a, b)) % b == 0
  {
    if a >= 0 {
      assert a - JsRem(a, b) == (a / b) * b;
      DivModUnique(a - JsRem(a, b), b, a / b, 0);
    } else {
      var q := (-a) / b;
      assert -a == q * b + (-a) % b;
      assert a - JsRem(a, b) == (-q) * b;
      DivModUnique(a - JsRem(a, b), b, -q, 0);
    }
  }

  /** Adding the modulus does not change the remainder. */
  lemma ModShift(x: int, n: int)
    requires n > 0
    ensures (x + n) % n == x % n
  {
    DivModUnique(x + n, n, x / n + 1, x % n);
  }

  /** Euclidean division is determined by quotient and remainder. */
  lemma DivModUnique(a: int, n: int, q: int, r: int)
    requires n > 0 && 0 <= r < n && a == q * n + r
    ensures a % n == r
  {
    var q' := a / n;
    assert a == q' * n + a % n;
    if q' > q {
      MulMono(q + 1, q', n);
    } else if q' < q {
      MulMono(q' + 1, q, n);
    }
  }

  lemma MulMono(x: int, y: int, n: int)
    requires x <= y && n > 0
    ensures x * n <= y * n
  {
    assert y * n == x * n + (y - x) * n;
  }

  /** Next and previous wrap around: from a valid index both stay valid, the
      last slide is followed by the first and the first preceded by the last. */
  lemma BannerNavigationWraps(current: int, slides: nat)
    requires 0 <= current < slides
    ensures 0 <= SetBanner(current, current + 1, slides) < slides
    ensures 0 <= SetBanner(current, current - 1, slides) < slides
    ensures current == slides - 1 ==> SetBanner(current, current + 1, slides) == 0
    ensures current == 0 ==> SetBanner(current, current - 1, slides) == slides - 1
    ensures current < slides - 1 ==> SetBanner(current, current + 1, slides) == current + 1
    ensures current > 0 ==> SetBanner(current, current - 1, slides) == current - 1
  {
    DivModUnique(slides, slides, 1, 0);
    DivModUnique(-1, slides, -1, slides - 1);
  }

  /** The index `-slides - 1` gives -1: JavaScript's `%` keeps the sign of the dividend. */
  lemma BannerIndexBelowRange(slides: nat)
    requires slides > 1
    ensures SetBanner(0, -(slides as int) - 1, slides) == -1
  {
  }

  // ---------------------------------------------------------------------------
  // Countdown

  const SixHoursMs := 6 * 60 * 60 * 1000

  datatype Clock = Clock(hours: int, minutes: int, seconds: int)

  /** The hours/minutes/seconds shown for `diff` milliseconds left. */
  function CountdownClock(diff: int): (r: Clock)
    ensures diff >= 0 ==>
      && r.hours * 3600 + r.minutes * 60 + r.seconds == diff / 1000
      && r.hours >= 0
      && 0 <= r.minutes < 60
      && 0 <= r.seconds < 60
  {
    var totalSeconds := diff / 1000;
    var hours := totalSeconds / 3600;
    var minutes := JsRem(totalSeconds, 3600) / 60;
    var seconds := JsRem(totalSeconds, 60);
    SplitIsExact(totalSeconds);
    Clock(hours, minutes, seconds)
  }

  /** The split of a non-negative number of seconds is exact. */
  lemma SplitIsExact(t: int)
    ensures t >= 0 ==>
      (t / 3600) * 3600 + ((t % 3600) / 60) * 60 + t % 60 == t
  {
    if t >= 0 {
      var h := t / 3600;
      var a := t % 3600;
      assert t == h * 3600 + a;
      var m := a / 60;
      var s := a % 60;
      assert a == m * 60 + s;
      assert t == (h * 60 + m) * 60 + s;
      assert t % 60 == s;
    }
  }

  /** One tick of the countdown: `now` is the clock when the tick starts; when
      the sale has ended the end is reset to six hours after `refreshNow`, and
      the remaining time is then read at `readNow`. Returns the (possibly
      reset) end time and the clock shown. */
  function TickCountdown(saleEndsAt: int, now: int, refreshNow: int, readNow: int): (r: (int, Clock))
    ensures saleEndsAt - now > 0 ==> r.0 == saleEndsAt && r.1 == CountdownClock(saleEndsAt - now)
    ensures saleEndsAt - now <= 0 ==> r.0 == refreshNow + SixHoursMs
    ensures saleEndsAt - now <= 0 ==> r.1 == CountdownClock(refreshNow + SixHoursMs - readNow)
    ensures (saleEndsAt - now > 0 || refreshNow <= readNow < refreshNow + SixHoursMs) ==>
      r.1.hours >= 0 && 0 <= r.1.minutes < 60 && 0 <= r.1.seconds < 60
    ensures saleEndsAt - now <= 0 && refreshNow <= readNow ==> r.1.hours <= 6
  {
    var diff := saleEndsAt - now;
    if diff <= 0 then
      var ends := refreshNow + SixHoursMs;
      (ends, CountdownClock(ends - readNow))
    else
      (saleEndsAt, CountdownClock(diff))
  }

  // ---------------------------------------------------------------------------
  // HTML escaping

  /** `s.replaceAll(c, rep)` for a one-character pattern. */
  function ReplaceAll(s: string, c: char, rep: string): string {
    if s == [] then [] else (if s[0] == c then rep else [s[0]]) + ReplaceAll(s[1..], c, rep)
  }

  /** `escapeHtml`: five replacements in source order, `&` first. */
  function EscapeHtml(s: string): string {
    var s1 := ReplaceAll(s, '&', "&amp;");
    var s2 := ReplaceAll(s1, '<', "&lt;");
    var s3 := ReplaceAll(s2, '>', "&gt;");
    var s4 := ReplaceAll(s3, '"', "&quot;");
    ReplaceAll(s4, '\'', "&#039;")
  }

  /** The characters `escapeHtml` rewrites. */
  predicate Special(c: char) {
    c == '&' || c == '<' || c == '>' || c == '"' || c == '\''
  }

  /** The entity each special character becomes. */
  function EscapeChar(c: char): string {
    match c
    case '&' => "&amp;"
    case '<' => "&lt;"
    case '>' => "&gt;"
    case '"' => "&quot;"
    case '\'' => "&#039;"
    case _ => [c]
  }

  /** Single-pass reference escaping: each character replaced by its entity. */
  function EscapeEach(s: string): string {
    if s == [] then [] else EscapeChar(s[0]) + EscapeEach(s[1..])
  }

  predicate StartsEntity(t: string) {
    StartsWith(t, "&amp;") || StartsWith(t, "&lt;") || StartsWith(t, "&gt;")
    || StartsWith(t, "&quot;") || StartsWith(t, "&#039;")
  }

  /** Safe HTML text: no `<`, `>`, `"` or `'`, and every `&` begins an entity. */
  predicate Escaped(t: string) {
    forall i :: 0 <= i < |t| ==>
      t[i] != '<' && t[i] != '>' && t[i] != '"' && t[i] != '\''
      && (t[i] == '&' ==> StartsEntity(t[i..]))
  }

  /** Inverse of escaping: decodes the five entities, left to right. */
  function UnescapeHtml(t: string): string
    decreases |t|
  {
    if t == [] then []
    else if StartsWith(t, "&amp;") then "&" + UnescapeHtml(t[5..])
    else if StartsWith(t, "&lt;") then "<" + UnescapeHtml(t[4..])
    else if StartsWith(t, "&gt;") then ">" + UnescapeHtml(t[4..])
    else if StartsWith(t, "&quot;") then "\"" + UnescapeHtml(t[6..])
    else if StartsWith(t, "&#039;") then "'" + UnescapeHtml(t[6..])
    else [t[0]] + UnescapeHtml(t[1..])
  }

  lemma {:induction false} ReplaceAllConcat(a: string, b: string, c: char, rep: string)
    ensures ReplaceAll(a + b, c, rep) == ReplaceAll(a, c, rep) + ReplaceAll(b, c, rep)
  {
    if a != [] {
      ReplaceAllConcat(a[1..], b, c, rep);
      assert (a + b)[1..] == a[1..] + b;
    } else {
      assert a + b == b;
    }
  }

  lemma {:induction false} ReplaceAllAbsent(s: string, c: char, rep: string)
    requires forall i :: 0 <= i < |s| ==> s[i] != c
    ensures ReplaceAll(s, c, rep) == s
  {
    if s != [] {
      ReplaceAllAbsent(s[1..], c, rep);
    }
  }

  lemma EscapeHtmlConcat(a: string, b: string)
    ensures EscapeHtml(a + b) == EscapeHtml(a) + EscapeHtml(b)
  {
    var a1 := ReplaceAll(a, '&', "&amp;");
    var b1 := ReplaceAll(b, '&', "&amp;");
    ReplaceAllConcat(a, b, '&', "&amp;");
    var a2 := ReplaceAll(a1, '<', "&lt;");
    var b2 := ReplaceAll(b1, '<', "&lt;");
    ReplaceAllConcat(a1, b1, '<', "&lt;");
    var a3 := ReplaceAll(a2, '>', "&gt;");
    var b3 := ReplaceAll(b2, '>', "&gt;");
    ReplaceAllConcat(a2, b2, '>', "&gt;");
    var a4 := ReplaceAll(a3, '"', "&quot;");
    var b4 := ReplaceAll(b3, '"', "&quot;");
    ReplaceAllConcat(a3, b3, '"', "&quot;");
    ReplaceAllConcat(a4, b4, '\'', "&#039;");
  }

  /** Replacing `&` first is what makes the sequential replacements agree with
      escaping each character once: no later step meets the `&` of an entity it
      did not produce. */
  lemma EscapeHtmlChar(x: char)
    ensures EscapeHtml([x]) == EscapeChar(x)
  {
    var e := EscapeChar(x);
    assert forall i :: 0 <= i < |e| ==> e[i] != '<' && e[i] != '>' && e[i] != '"' && e[i] != '\'' by {
      if x == '&' || x == '<' || x == '>' || x == '"' || x == '\'' {
      }
    }
    ReplaceAllSingle(x, '&', "&amp;");
    if x == '&' {
      EscapeRest(e, 0);
    } else {
      ReplaceAllSingle(x, '<', "&lt;");
      if x == '<' {
        EscapeRest(e, 1);
      } else {
        ReplaceAllSingle(x, '>', "&gt;");
        if x == '>' {
          EscapeRest(e, 2);
        } else {
          ReplaceAllSingle(x, '"', "&quot;");
          if x == '"' {
            EscapeRest(e, 3);
          } else {
            ReplaceAllSingle(x, '\'', "&#039;");
          }
        }
      }
    }
  }

  /** The replacements after step `done` leave an entity unchanged. */
  lemma EscapeRest(e: string, done: nat)
    requires forall i :: 0 <= i < |e| ==> e[i] != '<' && e[i] != '>' && e[i] != '"' && e[i] != '\''
    ensures done < 1 ==> ReplaceAll(e, '<', "&lt;") == e
    ensures done < 2 ==> ReplaceAll(e, '>', "&gt;") == e
    ensures done < 3 ==> ReplaceAll(e, '"', "&quot;") == e
    ensures ReplaceAll(e, '\'', "&#039;") == e
  {
    ReplaceAllAbsent(e, '<', "&lt;");
    ReplaceAllAbsent(e, '>', "&gt;");
    ReplaceAllAbsent(e, '"', "&quot;");
    ReplaceAllAbsent(e, '\'', "&#039;");
  }

  lemma ReplaceAllSingle(x: char, c: char, rep: string)
    ensures ReplaceAll([x], c, rep) == if x == c then rep else [x]
  {
    assert [x][1..] == [];
  }

  /** The five sequential replacements equal the single-pass escaping. */
  lemma {:induction false} EscapeHtmlIsEscapeEach(s: string)
    ensures EscapeHtml(s) == EscapeEach(s)
  {
    if s != [] {
      EscapeHtmlIsEscapeEach(s[1..]);
      assert s == [s[0]] + s[1..];
      EscapeHtmlConcat([s[0]], s[1..]);
      EscapeHtmlChar(s[0]);
    } else {
      assert EscapeHtml(s) == [];
    }
  }

  lemma StartsWithExtend(t: string, p: string, u: string)
    requires StartsWith(t, p)
    ensures StartsWith(t + u, p)
  {
    assert (t + u)[..|p|] == t[..|p|];
  }

  lemma EscapedConcat(a: string, b: string)
    requires Escaped(a) && Escaped(b)
    ensures Escaped(a + b)
  {
    var t := a + b;
    forall i | 0 <= i < |t| && t[i] == '&' ensures StartsEntity(t[i..]) {
      if i < |a| {
        assert t[i..] == a[i..] + b;
        assert a[i] == '&';
        if StartsWith(a[i..], "&amp;") {
          StartsWithExtend(a[i..], "&amp;", b);
        } else if StartsWith(a[i..], "&lt;") {
          StartsWithExtend(a[i..], "&lt;", b);
        } else if StartsWith(a[i..], "&gt;") {
          StartsWithExtend(a[i..], "&gt;", b);
        } else if StartsWith(a[i..], "&quot;") {
          StartsWithExtend(a[i..], "&quot;", b);
        } else {
          StartsWithExtend(a[i..], "&#039;", b);
        }
      } else {
        assert t[i..] == b[i - |a|..];
        assert t[i] == b[i - |a|];
      }
    }
    forall i | 0 <= i < |t| ensures t[i] != '<' && t[i] != '>' && t[i] != '"' && t[i] != '\'' {
      if i >= |a| {
        assert t[i] == b[i - |a|];
      }
    }
  }

  lemma EscapeCharEscaped(x: char)
    ensures Escaped(EscapeChar(x))
  {
    var e := EscapeChar(x);
    if Special(x) {
      assert e[0..] == e;
      assert StartsEntity(e[0..]);
      assert forall i :: 1 <= i < |e| ==> e[i] != '&' && e[i] != '<' && e[i] != '>' && e[i] != '"' && e[i] != '\'';
    }
  }

  lemma {:induction false} EscapeEachEscaped(s: string)
    ensures Escaped(EscapeEach(s))
  {
    if s != [] {
      EscapeEachEscaped(s[1..]);
      EscapeCharEscaped(s[0]);
      EscapedConcat(EscapeChar(s[0]), EscapeEach(s[1..]));
    }
  }

  /** The output of `escapeHtml` contains none of `<`, `>`, `"`, `'`, and every
      `&` in it begins one of the five entities. */
  lemma EscapeHtmlIsSafe(s: string)
    ensures forall i :: 0 <= i < |EscapeHtml(s)| ==>
      && EscapeHtml(s)[i] != '<' && EscapeHtml(s)[i] != '>'
      && EscapeHtml(s)[i] != '"' && EscapeHtml(s)[i] != '\''
      && (EscapeHtml(s)[i] == '&' ==> StartsEntity(EscapeHtml(s)[i..]))
  {
    EscapeHtmlIsEscapeEach(s);
    EscapeEachEscaped(s);
  }

  /** `escapeHtml` leaves a string with no special character unchanged. */
  lemma EscapeHtmlIdentity(s: string)
    requires forall i :: 0 <= i < |s| ==> !Special(s[i])
    ensures EscapeHtml(s) == s
  {
    ReplaceAllAbsent(s, '&', "&amp;");
    ReplaceAllAbsent(s, '<', "&lt;");
    ReplaceAllAbsent(s, '>', "&gt;");
    ReplaceAllAbsent(s, '"', "&quot;");
    ReplaceAllAbsent(s, '\'', "&#039;");
  }

  /** A text whose character at `i` differs from the pattern's does not start with it. */
  lemma NotStartsWith(t: string, p: string, i: nat)
    requires i < |p| && i < |t| && t[i] != p[i]
    ensures !StartsWith(t, p)
  {
    if |p| <= |t| {
      assert t[..|p|][i] == t[i];
    }
  }

  lemma UnescapeEscapeChar(x: char, rest: string)
    ensures UnescapeHtml(EscapeChar(x) + rest) == [x] + UnescapeHtml(rest)
  {
    var e := EscapeChar(x);
    var t := e + rest;
    assert t[..|e|] == e && t[|e|..] == rest;
    if x == '&' {
    } else if x == '<' {
      NotStartsWith(t, "&amp;", 1);
    } else if x == '>' {
      NotStartsWith(t, "&amp;", 1);
      NotStartsWith(t, "&lt;", 1);
    } else if x == '"' {
      NotStartsWith(t, "&amp;", 1);
      NotStartsWith(t, "&lt;", 1);
      NotStartsWith(t, "&gt;", 1);
    } else if x == '\'' {
      NotStartsWith(t, "&amp;", 1);
      NotStartsWith(t, "&lt;", 1);
      NotStartsWith(t, "&gt;", 1);
      NotStartsWith(t, "&quot;", 1);
    } else {
      NotStartsWith(t, "&amp;", 0);
      NotStartsWith(t, "&lt;", 0);
      NotStartsWith(t, "&gt;", 0);
      NotStartsWith(t, "&quot;", 0);
      NotStartsWith(t, "&#039;", 0);
    }
  }

  lemma {:induction false} UnescapeEscapeEach(s: string)
    ensures UnescapeHtml(EscapeEach(s)) == s
  {
    if s != [] {
      UnescapeEscapeEach(s[1..]);
      UnescapeEscapeChar(s[0], EscapeEach(s[1..]));
    }
  }

  /** Escaping loses nothing: decoding the five entities restores the input. */
  lemma EscapeHtmlRoundTrip(s: string)
    ensures UnescapeHtml(EscapeHtml(s)) == s
  {
    EscapeHtmlIsEscapeEach(s);
    UnescapeEscapeEach(s);
  }

  // ---------------------------------------------------------------------------
  // Brand filter for product cards

  /** A product card's `data-brand` and `data-name` attributes, "" when absent. */
  datatype Card = Card(brand: string, name: string)

  /** The `brandTokens` table: name fragments that identify a brand. */
  function BrandTokens(brand: string): (r: Option<seq<string>>)
    ensures r.Some? <==> brand in {"nike", "adidas", "puma", "converse", "asics", "new-balance"}
    ensures r.Some? ==> brand in r.value
  {
    if brand == "nike" then Some(["nike"])
    else if brand == "adidas" then Some(["adidas"])
    else if brand == "puma" then Some(["puma"])
    else if brand == "converse" then Some(["converse"])
    else if brand == "asics" then Some(["asics"])
    else if brand == "new-balance" then Some(["new balance", "new-balance", "newbalance", "nb"])
    else None
  }

  /** The tokens searched for `brand`: its table entry, or the brand itself. */
  function TokensFor(brand: string): (r: seq<string>)
    ensures brand in r
  {
    BrandTokens(brand).GetOr([brand])
  }

  /** `cardMatchesBrand(card, brand)`. */
  function CardMatchesBrand(card: Card, brand: string): (r: bool)
    ensures brand == "all" ==> r
    ensures brand != "all" && card.brand != "" ==> (r <==> Lower(card.brand) == brand)
    ensures brand != "all" && card.brand == "" ==>
      (r <==> exists i :: 0 <= i < |TokensFor(brand)| && Includes(Lower(card.name), TokensFor(brand)[i]))
  {
    if brand == "all" then true
    else
      var dataBrand := Lower(card.brand);
      if dataBrand != "" then dataBrand == brand
      else
        var name := Lower(card.name);
        var tokens := TokensFor(brand);
        exists i :: 0 <= i < |tokens| && Includes(name, tokens[i])
  }

  /** Every brand is among its own tokens, so a card without `data-brand` whose
      lower-cased name contains the brand always matches it. */
  lemma CardNamedAfterBrandMatches(card: Card, brand: string)
    requires card.brand == ""
    requires Includes(Lower(card.name), brand)
    ensures CardMatchesBrand(card, brand)
  {
    var tokens := TokensFor(brand);
    var i := if brand == "new-balance" then 1 else 0;
    assert tokens[i] == brand;
    assert Includes(Lower(card.name), tokens[i]);
  }
}
