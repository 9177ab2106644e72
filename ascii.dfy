/** The terminal formatter ASCIIOutput (asciioutput.py): headings and rules whose widths
    follow from one configured line width. Only the returned strings (the noOutput paths)
    are modelled; printing is a side channel. Strings are sequences of characters. */
module Ascii {
  import opened Strings

  /** The width StudICLI configures (ASCIIOutput(80)), which is also the constructor default. */
  const DefaultWidth: int := 80

  function Min(a: int, b: int): int { if a <= b then a else b }

  /** Python's c * n: n copies of c, the empty string when n <= 0. */
  function Repeat(c: char, n: int): (r: string)
    ensures |r| == if n > 0 then n else 0
    ensures forall i :: 0 <= i < |r| ==> r[i] == c
    decreases if n > 0 then n else 0
  {
    if n <= 0 then "" else [c] + Repeat(c, n - 1)
  }

  /** Python's s.ljust(n, c): s padded on the right with c up to n characters. */
  function LJust(s: string, n: int, c: char): (r: string)
    ensures |r| == if |s| >= n then |s| else n
    ensures r[..|s|] == s
    ensures forall i :: |s| <= i < |r| ==> r[i] == c
  {
    s + Repeat(c, n - |s|)
  }

  /** Python's s[:n]; a negative n counts from the end and clamps at the empty string. */
  function PrefixTo(s: string, n: int): (r: string)
    ensures |r| == if n >= 0 then Min(n, |s|) else if |s| + n > 0 then |s| + n else 0
    ensures r == s[..|r|]
  {
    if n >= 0 then (if n <= |s| then s[..n] else s)
    else if |s| + n > 0 then s[..|s| + n]
    else ""
  }

  /** trim (asciioutput.py:21-28): cut s down to width - 8 characters and mark the cut with "...". */
  function Trim(width: int, s: string): (r: string)
    ensures |s| <= width - 8 ==> r == s
    ensures width >= 8 && |s| > width - 8 ==> r == s[..width - 8] + "..." && |r| == width - 5
    ensures width >= 8 ==> |r| <= width - 5
  {
    var trimmed := PrefixTo(s, Min(width - 8, |s|));
    if |trimmed| != |s| then trimmed + "..." else s
  }

  /** Trimming twice changes nothing more than trimming once. */
  lemma TrimIdempotent(width: int, s: string)
    requires width >= 8
    ensures Trim(width, Trim(width, s)) == Trim(width, s)
  {
    var t := Trim(width, s);
    if |s| > width - 8 {
      var cut := s[..width - 8];
      assert t == cut + "...";
      assert t[..width - 8] == cut;
    }
  }

  /** A trimmed string carries no line break its input did not carry. */
  lemma TrimNoNewline(width: int, s: string)
    requires '\n' !in s
    ensures '\n' !in Trim(width, s)
  {
    var t := PrefixTo(s, Min(width - 8, |s|));
    assert forall i :: 0 <= i < |t| ==> t[i] == s[i];
  }

  /** A run of a character other than a line break holds no line break. */
  lemma RepeatNoNewline(c: char, n: int)
    requires c != '\n'
    ensures '\n' !in Repeat(c, n)
  {
    var r := Repeat(c, n);
    assert forall i :: 0 <= i < |r| ==> r[i] != '\n';
  }

  /** h1 (asciioutput.py:30-38): a line of '#', the trimmed text framed by "# " and "#" and
      padded with '/', and a second line of '#'. */
  function H1(width: int, text: string): string
  {
    var output := Repeat('#', width) + "\n";
    var output := output + "# " + LJust(Trim(width, text), width - 3, '/') + "#" + "\n";
    output + Repeat('#', width)
  }

  /** The middle line of h1. */
  function H1Middle(width: int, text: string): string
  {
    "# " + LJust(Trim(width, text), width - 3, '/') + "#"
  }

  /** The middle line of h2. */
  function H2Middle(width: int, text: string): string
  {
    "| " + LJust(Trim(width, text), width - 4, ' ') + " |"
  }

  /** The border line of h2. */
  function H2Border(width: int): string
  {
    "+" + Repeat('-', width - 2) + "+"
  }

  /** h1 consists of three lines of exactly `width` characters: a '#' border, the trimmed
      text starting with "# ", padded with '/' and closed with '#', and the same border. */
  lemma H1Layout(width: int, text: string)
    requires width >= 8
    requires '\n' !in text
    ensures var border := Repeat('#', width);
      var middle := H1Middle(width, text);
      var t := Trim(width, text);
      Split(H1(width, text), '\n') == [border, middle, border]
      && |border| == width && |middle| == width
      && middle == "# " + t + Repeat('/', width - 3 - |t|) + "#"
  {
    var border := Repeat('#', width);
    var middle := H1Middle(width, text);
    H1MiddleShape(width, text);
    H1Lines(width, text);
    RepeatNoNewline('#', width);
    SplitThree(border, middle, border, '\n');
  }

  /** h1 is its border, its middle line and its border joined by line breaks. */
  lemma H1Lines(width: int, text: string)
    ensures H1(width, text) == Repeat('#', width) + "\n" + H1Middle(width, text) + "\n" + Repeat('#', width)
  {
  }

  /** The middle line of h1 is `width` long, holds no line break and pads with '/'. */
  lemma H1MiddleShape(width: int, text: string)
    requires width >= 8
    requires '\n' !in text
    ensures var t := Trim(width, text);
      H1Middle(width, text) == "# " + t + Repeat('/', width - 3 - |t|) + "#"
      && |H1Middle(width, text)| == width && '\n' !in H1Middle(width, text)
  {
    var t := Trim(width, text);
    TrimNoNewline(width, text);
    RepeatNoNewline('/', width - 3 - |t|);
  }

  /** h2 (asciioutput.py:40-49): a "+---+" border, the trimmed text framed by "| " and " |"
      and padded with spaces, and the same border. */
  function H2(width: int, text: string): string
  {
    var output := "+" + Repeat('-', width - 2) + "+" + "\n";
    var output := output + "| " + LJust(Trim(width, text), width - 4, ' ') + " |" + "\n";
    output + "+" + Repeat('-', width - 2) + "+"
  }

  /** h2 consists of three lines of exactly `width` characters. */
  lemma H2Layout(width: int, text: string)
    requires width >= 8
    requires '\n' !in text
    ensures var border := H2Border(width);
      var middle := H2Middle(width, text);
      var t := Trim(width, text);
      Split(H2(width, text), '\n') == [border, middle, border]
      && |border| == width && |middle| == width
      && border == "+" + Repeat('-', width - 2) + "+"
      && middle == "| " + t + Repeat(' ', width - 4 - |t|) + " |"
  {
    var border := H2Border(width);
    var middle := H2Middle(width, text);
    var t := Trim(width, text);
    TrimNoNewline(width, text);
    assert middle == "| " + t + Repeat(' ', width - 4 - |t|) + " |";
    RepeatNoNewline(' ', width - 4 - |t|);
    RepeatNoNewline('-', width - 2);
    assert H2(width, text) == border + "\n" + middle + "\n" + border;
    SplitThree(border, middle, border, '\n');
  }

  /** h3 (asciioutput.py:51-57): the text followed by ":\n", trimmed as a whole. */
  function H3(width: int, text: string): (r: string)
  {
    Trim(width, text + ":\n")
  }

  /** The ":\n" suffix of h3 survives exactly when text and suffix fit in width - 8. */
  lemma H3Suffix(width: int, text: string)
    requires width >= 8
    ensures var r := H3(width, text);
      (|r| >= 2 && r[|r| - 2..] == ":\n") <==> |text| + 2 <= width - 8
    ensures |text| + 2 <= width - 8 ==> H3(width, text) == text + ":\n"
  {
    var s := text + ":\n";
    var r := H3(width, text);
    if |text| + 2 > width - 8 {
      assert r == s[..width - 8] + "...";
      assert r[|r| - 2..] == "..";
    }
  }

  /** hr (asciioutput.py:67-73): a rule of exactly `width` dashes. */
  function Hr(width: int): (r: string)
    ensures |r| == if width > 0 then width else 0
    ensures forall i :: 0 <= i < |r| ==> r[i] == '-'
  {
    Repeat('-', width)
  }
}
