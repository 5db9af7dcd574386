/** The Zen Moment overlay: which view it shows, and how the `source` and
    `insight` fields are cut into displayed lines. */
module ZenOverlay {
  import opened Wrappers

  const NEWLINE: char := '\n'
  const STAR: char := '*'

  datatype ZenMomentContent = ZenMomentContent(quote: string, source: string, insight: string)

  /** What the overlay renders. */
  datatype View =
    | Hidden
    | Loading
    | Moment(quote: string, sourceLines: seq<string>, insightLines: seq<string>)
    | Unavailable

  /** The inverse of splitting: parts separated by `sep`. */
  function Join(parts: seq<string>, sep: char): string {
    if |parts| == 0 then []
    else if |parts| == 1 then parts[0]
    else parts[0] + [sep] + Join(parts[1..], sep)
  }

  /** `String.prototype.split` on a one-character separator. */
  function Split(s: string, sep: char): (parts: seq<string>)
    ensures |parts| == multiset(s)[sep] + 1
    ensures forall i :: 0 <= i < |parts| ==> sep !in parts[i]
    ensures Join(parts, sep) == s
  {
    if s == [] then [[]]
    else
      var rest := Split(s[1..], sep);
      assert s == [s[0]] + s[1..];
      if s[0] == sep then
        assert ([[]] + rest)[1..] == rest;
        [[]] + rest
      else
        var parts := [[s[0]] + rest[0]] + rest[1..];
        assert parts[1..] == rest[1..];
        assert |rest| > 1 ==> Join(rest, sep) == rest[0] + [sep] + Join(rest[1..], sep);
        parts
  }

  /** A text without the separator splits into itself alone. */
  lemma {:induction false} SplitWithoutSep(s: string, sep: char)
    requires sep !in s
    ensures Split(s, sep) == [s]
  {
    if s != [] {
      SplitWithoutSep(s[1..], sep);
      assert [s[0]] + s[1..] == s;
    }
  }

  /** Splitting stops at the first separator. */
  lemma {:induction false} SplitAtFirstSep(a: string, b: string, sep: char)
    requires sep !in a
    ensures Split(a + [sep] + b, sep) == [a] + Split(b, sep)
  {
    var s := a + [sep] + b;
    if a == [] {
      assert s[0] == sep && s[1..] == b;
    } else {
      assert s[0] == a[0] && s[1..] == a[1..] + [sep] + b;
      SplitAtFirstSep(a[1..], b, sep);
      var rest := Split(s[1..], sep);
      assert rest == [a[1..]] + Split(b, sep);
      assert Split(s, sep) == [[a[0]] + rest[0]] + rest[1..];
      assert [a[0]] + a[1..] == a;
    }
  }

  /** Splitting undoes joining, for non-empty lists of separator-free parts. */
  lemma {:induction false} SplitJoin(parts: seq<string>, sep: char)
    requires |parts| >= 1
    requires forall i :: 0 <= i < |parts| ==> sep !in parts[i]
    ensures Split(Join(parts, sep), sep) == parts
  {
    if |parts| == 1 {
      SplitWithoutSep(parts[0], sep);
    } else {
      SplitJoin(parts[1..], sep);
      SplitAtFirstSep(parts[0], Join(parts[1..], sep), sep);
      assert [parts[0]] + parts[1..] == parts;
    }
  }

  /** `line.replace(/[*]/g, '')`: every asterisk removed, nothing else. */
  function StripStars(s: string): (r: string)
    ensures STAR !in r
    ensures multiset(r) == multiset(s)[STAR := 0]
  {
    if s == [] then []
    else
      assert s == [s[0]] + s[1..];
      (if s[0] == STAR then [] else [s[0]]) + StripStars(s[1..])
  }

  lemma {:induction false} StripStarsAppend(a: string, b: string)
    ensures StripStars(a + b) == StripStars(a) + StripStars(b)
  {
    if a == [] {
      assert a + b == b;
    } else {
      assert (a + b)[0] == a[0];
      assert (a + b)[1..] == a[1..] + b;
      StripStarsAppend(a[1..], b);
    }
  }

  /** Each line with its asterisks removed. */
  function StripEach(lines: seq<string>): (r: seq<string>)
    ensures |r| == |lines|
    ensures forall i :: 0 <= i < |r| ==> r[i] == StripStars(lines[i])
  {
    if lines == [] then [] else [StripStars(lines[0])] + StripEach(lines[1..])
  }

  /** Stripping line by line and joining equals stripping the joined text,
      because the separator is not an asterisk. */
  lemma {:induction false} JoinStripStars(parts: seq<string>, sep: char)
    requires sep != STAR
    ensures Join(StripEach(parts), sep) == StripStars(Join(parts, sep))
  {
    if |parts| > 1 {
      var stripped := StripEach(parts);
      assert stripped[1..] == StripEach(parts[1..]);
      JoinStripStars(parts[1..], sep);
      StripStarsAppend(parts[0] + [sep], Join(parts[1..], sep));
      StripStarsAppend(parts[0], [sep]);
      assert StripStars([sep]) == [sep];
    }
  }

  /** The displayed lines of a `source` or `insight` field. */
  function CleanLines(field: string): (lines: seq<string>)
    ensures |lines| == multiset(field)[NEWLINE] + 1
    ensures forall i :: 0 <= i < |lines| ==> STAR !in lines[i]
    ensures Join(lines, NEWLINE) == StripStars(field)
  {
    var parts := Split(field, NEWLINE);
    JoinStripStars(parts, NEWLINE);
    StripEach(parts)
  }

  /** The overlay's view selection: hidden first, then loading, then the
      content, and an error notice when there is no content. */
  function SelectView(isVisible: bool, isLoading: bool, content: Option<ZenMomentContent>): (v: View)
    ensures !isVisible ==> v == Hidden
    ensures isVisible && isLoading ==> v == Loading
    ensures isVisible && !isLoading && content.None? ==> v == Unavailable
    ensures isVisible && !isLoading && content.Some? ==>
      v.Moment? && v.quote == content.value.quote
      && |v.sourceLines| == multiset(content.value.source)[NEWLINE] + 1
      && |v.insightLines| == multiset(content.value.insight)[NEWLINE] + 1
      && Join(v.sourceLines, NEWLINE) == StripStars(content.value.source)
      && Join(v.insightLines, NEWLINE) == StripStars(content.value.insight)
    ensures v.Moment? ==>
      (forall i :: 0 <= i < |v.sourceLines| ==> STAR !in v.sourceLines[i])
      && (forall i :: 0 <= i < |v.insightLines| ==> STAR !in v.insightLines[i])
  {
    if !isVisible then Hidden
    else if isLoading then Loading
    else match content
      case Some(c) => Moment(c.quote, CleanLines(c.source), CleanLines(c.insight))
      case None => Unavailable
  }
}
