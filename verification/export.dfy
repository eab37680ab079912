/**
 The text export of the current results: the document body and the name of
 the file offered for download. The date line is a parameter, since the page
 reads it from the browser clock.
 */
module Export {
  import opened Wrappers
  import opened Types
  import opened Text

  /** The separator line closing the header and every section. */
  const Rule: string := "--------------------------------------------------\n\n"

  const FileNamePrefix: string := "ad-copy-"
  const FileNameSuffix: string := ".txt"

  datatype Download = Download(fileName: string, content: string)

  function Header(f: FormData, date: string): string
  {
    "Ad Genius Results for: " + f.productName + "\n"
    + "Date: " + date + "\n"
    + "Platform: " + f.platform + " | Objective: " + f.objective + "\n\n"
    + Rule
  }

  /** The section for the variation shown as option number `k`. */
  function Section(k: nat, v: Variation): string
  {
    "OPTION " + NatToString(k) + " (" + v.framework + ")\n\n"
    + "HEADLINE:\n" + v.headline + "\n\n"
    + "PRIMARY TEXT:\n" + v.primaryText + "\n\n"
    + "CTA: " + v.cta + "\n\n"
    + "WHY IT WORKS: " + v.explanation + "\n\n"
    + Rule
  }

  /** The renderings of `vs`, numbered from `first` on, concatenated. */
  function Numbered<T>(vs: seq<T>, first: nat, render: (nat, T) -> string): string
    decreases |vs|
  {
    if |vs| == 0 then "" else render(first, vs[0]) + Numbered(vs[1..], first + 1, render)
  }

  /** Each section opens with its option number and the variation's framework. */
  lemma SectionHeading(k: nat, v: Variation)
    ensures var heading := "OPTION " + NatToString(k) + " (" + v.framework + ")\n\n";
      |Section(k, v)| > |heading| && Section(k, v)[..|heading|] == heading
  {
  }

  /** The sections of `vs`, numbered from `first` on. */
  function Sections(vs: seq<Variation>, first: nat): string
  {
    Numbered(vs, first, Section)
  }

  /** The download name: fixed prefix and suffix around the product name's slug. */
  function FileName(productName: string): (r: string)
    ensures |r| == |FileNamePrefix| + |Slug(productName)| + |FileNameSuffix|
    ensures r[..|FileNamePrefix|] == FileNamePrefix
    ensures r[|r| - |FileNameSuffix|..] == FileNameSuffix
    ensures r[|FileNamePrefix|..|r| - |FileNameSuffix|] == Slug(productName)
    ensures NoSpace(r)
  {
    AffixesHaveNoSpace();
    Sandwich(FileNamePrefix, Slug(productName), FileNameSuffix);
    NoSpaceConcat(FileNamePrefix, Slug(productName), FileNameSuffix);
    FileNamePrefix + Slug(productName) + FileNameSuffix
  }

  lemma AffixesHaveNoSpace()
    ensures NoSpace(FileNamePrefix) && NoSpace(FileNameSuffix)
  {
  }

  /** The three parts of a concatenation can be sliced back out of it. */
  lemma Sandwich<T>(p: seq<T>, m: seq<T>, q: seq<T>)
    ensures var r := p + m + q;
      && |r| == |p| + |m| + |q|
      && r[..|p|] == p
      && r[|r| - |q|..] == q
      && r[|p|..|r| - |q|] == m
  {
  }

  lemma NoSpaceConcat(p: string, m: string, q: string)
    requires NoSpace(p) && NoSpace(m) && NoSpace(q)
    ensures NoSpace(p + m + q)
  {
  }

  /** The export of the current results; nothing is offered when there are none. */
  function Export(f: FormData, vs: seq<Variation>, date: string): (r: Option<Download>)
    ensures r.None? <==> |vs| == 0
    ensures r.Some? ==> r.value.fileName == FileName(f.productName)
    ensures r.Some? ==> |r.value.content| > |Header(f, date)|
    ensures r.Some? ==> r.value.content[..|Header(f, date)|] == Header(f, date)
  {
    if |vs| == 0 then None
    else Some(Download(FileName(f.productName), Header(f, date) + Sections(vs, 1)))
  }

  /** Numbered sections split at any point, the numbering carrying on. */
  lemma {:induction false} NumberedAppend<T>(a: seq<T>, b: seq<T>, first: nat, render: (nat, T) -> string)
    ensures Numbered(a + b, first, render) == Numbered(a, first, render) + Numbered(b, first + |a|, render)
  {
    if |a| > 0 {
      assert (a + b)[0] == a[0];
      assert (a + b)[1..] == a[1..] + b;
      NumberedAppend(a[1..], b, first + 1, render);
    } else {
      assert a + b == b;
    }
  }

  /** The rendering at index `i` sits between those before and those after it. */
  lemma NumberedAt<T>(vs: seq<T>, first: nat, render: (nat, T) -> string, i: nat)
    requires i < |vs|
    ensures Numbered(vs, first, render)
         == Numbered(vs[..i], first, render) + render(first + i, vs[i]) + Numbered(vs[i + 1..], first + i + 1, render)
  {
    assert vs == vs[..i] + vs[i..];
    NumberedAppend(vs[..i], vs[i..], first, render);
    assert vs[i..][0] == vs[i];
    assert vs[i..][1..] == vs[i + 1..];
  }

  /** The document is the header followed by one section per variation, in
      order: the variation at index `i` is option `i + 1`, preceded by the
      sections of the variations before it and followed by those after it. */
  lemma ExportLayout(f: FormData, vs: seq<Variation>, date: string, i: nat)
    requires i < |vs|
    ensures Export(f, vs, date).Some?
    ensures Export(f, vs, date).value.content
         == Header(f, date) + Sections(vs[..i], 1) + Section(i + 1, vs[i]) + Sections(vs[i + 1..], i + 2)
  {
    NumberedAt(vs, 1, Section, i);
    ConcatAssoc(Header(f, date), Sections(vs[..i], 1), Section(i + 1, vs[i]), Sections(vs[i + 1..], i + 2));
  }

  lemma ConcatAssoc<T>(h: seq<T>, a: seq<T>, x: seq<T>, b: seq<T>)
    ensures h + (a + x + b) == h + a + x + b
  {
  }

  /** A block inside a concatenation is found at the offset of what precedes it. */
  lemma SliceOfMiddle<T>(a: seq<T>, x: seq<T>, b: seq<T>, h: seq<T>)
    requires |h| <= |x| && x[..|h|] == h
    ensures |a| + |h| <= |a + x + b| && (a + x + b)[|a|..|a| + |h|] == h
  {
  }

  /** In the document, right after the header and the sections of the `i`
      earlier variations, comes the heading of the variation at index `i`,
      whose number reads back as `i + 1`. */
  lemma OptionNumberReadsBack(f: FormData, vs: seq<Variation>, date: string, i: nat)
    requires i < |vs|
    ensures Export(f, vs, date).Some?
    ensures var c := Export(f, vs, date).value.content;
      var p := |Header(f, date)| + |Sections(vs[..i], 1)|;
      var heading := "OPTION " + NatToString(i + 1) + " (" + vs[i].framework + ")\n\n";
      p + |heading| <= |c| && c[p..p + |heading|] == heading
    ensures DigitsValue(NatToString(i + 1)) == i + 1
  {
    ExportLayout(f, vs, date, i);
    SectionHeading(i + 1, vs[i]);
    var heading := "OPTION " + NatToString(i + 1) + " (" + vs[i].framework + ")\n\n";
    var a := Header(f, date) + Sections(vs[..i], 1);
    var x := Section(i + 1, vs[i]);
    var b := Sections(vs[i + 1..], i + 2);
    assert Export(f, vs, date).value.content == a + x + b;
    SliceOfMiddle(a, x, b, heading);
    NatToStringRoundTrip(i + 1);
  }
}
