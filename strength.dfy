/** The password-strength bar of the terminal UI (`internal/ui/strength.go`):
  * a 15-segment bar coloured by level and filled in proportion to the score,
  * and a meter that shows the same bar in every text view attached to it. */
module StrengthBar {
  import opened Text
  import opened Password

  /** `strengthBarWidth`. */
  const Width := 15

  /** The bar segment character (U+2501). */
  const Segment: char := '━'

  /** The colour tag of a level, "" for a level without one. */
  function ColorOf(l: Level): string
  {
    match l
    case Weak => "red"
    case Fair => "yellow"
    case Good => "blue"
    case Strong => "green"
    case Empty => ""
  }

  /** The number of filled segments: `score * 15 / 100`, at least one for a
    * positive score. */
  function Filled(score: int): (f: int)
    requires 0 <= score <= 100
    ensures 0 <= f <= Width
    ensures score > 0 ==> f >= 1
    ensures score == 0 ==> f == 0
    ensures score == 100 ==> f == Width
  {
    var f := score * Width / 100;
    if f < 1 && score > 0 then 1 else f
  }

  /** More score never fills fewer segments. */
  lemma FilledMonotone(a: int, b: int)
    requires 0 <= a <= b <= 100
    ensures Filled(a) <= Filled(b)
  {
    var qa, qb := a * Width / 100, b * Width / 100;
    assert 100 * qa <= a * Width < 100 * qa + 100;
    assert 100 * qb <= b * Width < 100 * qb + 100;
  }

  /** `formatStrengthBar`. */
  function FormatStrengthBar(password: string): (bar: string)
  {
    if password == "" then ""
    else
      var (score, level, text) := Strength(password);
      var color := ColorOf(level);
      if color == "" then ""
      else
        StrengthShape(password);
        Bar(color, text, Filled(score))
  }

  /** The number of occurrences of `c` in `s`. */
  function Count(s: string, c: char): (n: nat)
    ensures n <= |s|
    ensures c !in s ==> n == 0
  {
    if s == [] then 0 else Count(s[..|s| - 1], c) + (if s[|s| - 1] == c then 1 else 0)
  }

  lemma {:induction false} CountConcat(a: string, b: string, c: char)
    ensures Count(a + b, c) == Count(a, c) + Count(b, c)
    decreases |b|
  {
    if b == [] {
      assert a + b == a;
    } else {
      assert (a + b)[..|a + b| - 1] == a + b[..|b| - 1];
      CountConcat(a, b[..|b| - 1], c);
    }
  }

  lemma {:induction false} CountRepeat(c: char, n: nat)
    ensures Count(Repeat(c, n), c) == n
  {
    if n > 0 {
      assert Repeat(c, n)[..n - 1] == Repeat(c, n - 1);
      CountRepeat(c, n - 1);
    }
  }

  /** The bar text for a colour, a label and a number of filled segments. */
  function Bar(color: string, text: string, filled: int): string
    requires 0 <= filled <= Width
  {
    "[" + color + "]" + Repeat(Segment, filled) + "[gray]" + Repeat(Segment, Width - filled) +
    "[-]  [" + color + "]" + text + "[-]"
  }

  /** A bar holds exactly `Width` segments when the colour and label hold none. */
  lemma BarSegments(color: string, text: string, filled: int)
    requires 0 <= filled <= Width
    requires Segment !in color && Segment !in text
    ensures Count(Bar(color, text, filled), Segment) == Width
  {
    var head := "[" + color + "]";
    var tail := "[-]  [" + color + "]" + text + "[-]";
    assert Segment !in head && Segment !in "[gray]" && Segment !in tail;
    var r1, r2 := Repeat(Segment, filled), Repeat(Segment, Width - filled);
    assert Bar(color, text, filled) == head + r1 + "[gray]" + r2 + tail;
    CountConcat(head, r1, Segment);
    CountConcat(head + r1, "[gray]", Segment);
    CountConcat(head + r1 + "[gray]", r2, Segment);
    CountConcat(head + r1 + "[gray]" + r2, tail, Segment);
    CountRepeat(Segment, filled);
    CountRepeat(Segment, Width - filled);
  }

  /** A bar opens with its colour and the filled segments and closes with its
    * colour and label. */
  lemma BarEnds(color: string, text: string, filled: int)
    requires 0 <= filled <= Width
    ensures HasPrefix(Bar(color, text, filled), "[" + color + "]" + Repeat(Segment, filled))
    ensures HasSuffix(Bar(color, text, filled), "[" + color + "]" + text + "[-]")
  {
    var p := "[" + color + "]" + Repeat(Segment, filled);
    var q := "[" + color + "]" + text + "[-]";
    var bar := Bar(color, text, filled);
    assert bar == p + ("[gray]" + Repeat(Segment, Width - filled) + "[-]  ") + q;
    assert bar[..|p|] == p;
    assert bar[|bar| - |q|..] == q;
  }

  /** The empty password shows nothing; any other password shows a bar of exactly
    * 15 segments, the filled ones first, in the colour of its level and followed
    * by the level's label. */
  lemma BarShape(password: string)
    ensures password == "" <==> FormatStrengthBar(password) == ""
    ensures password != "" ==>
      var (score, level, text) := Strength(password);
      0 <= score <= 100 &&
      FormatStrengthBar(password) == Bar(ColorOf(level), text, Filled(score)) &&
      Count(FormatStrengthBar(password), Segment) == Width
  {
    if password != "" {
      StrengthShape(password);
      var (score, level, text) := Strength(password);
      assert Segment !in ColorOf(level) && Segment !in text;
      BarSegments(ColorOf(level), text, Filled(score));
    }
  }

  /** A text view; only its text is modelled. */
  class TextView {
    var text: string

    constructor ()
      ensures text == ""
    {
      text := "";
    }
  }

  /** A form; only the items added to it are modelled. */
  class Form {
    var items: seq<TextView>

    constructor ()
      ensures items == []
    {
      items := [];
    }
  }

  /** `strengthMeter`: the text views that show the bar. */
  class Meter {
    var views: seq<TextView>

    /** `newStrengthMeter`. */
    constructor ()
      ensures views == []
    {
      views := [];
    }

    /** `AddTo`: one new view, added to the form and to the meter. */
    method AddTo(form: Form)
      modifies this, form
      ensures |views| == |old(views)| + 1 && views[..|old(views)|] == old(views)
      ensures fresh(views[|views| - 1])
      ensures form.items == old(form.items) + [views[|views| - 1]]
    {
      var tv := new TextView();
      form.items := form.items + [tv];
      views := views + [tv];
    }

    /** `NewTextView`: one new view, added to the meter and returned. */
    method NewTextView() returns (tv: TextView)
      modifies this
      ensures fresh(tv) && views == old(views) + [tv]
    {
      tv := new TextView();
      views := views + [tv];
    }

    /** `Update`: every attached view shows the bar of `password`. */
    method Update(password: string)
      modifies views
      ensures forall v :: v in views ==> v.text == FormatStrengthBar(password)
    {
      var bar := FormatStrengthBar(password);
      for i := 0 to |views|
        invariant forall j :: 0 <= j < i ==> views[j].text == bar
      {
        views[i].text := bar;
      }
    }
  }
}
