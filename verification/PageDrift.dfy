/**
 The drift check on pages. It compares texts: one line for each page, its path and the JSON text of its access requirement,
 the lines sorted and joined by line breaks. Sorting and JSON are any functions with the properties stated here.
 */
module PageDrift {
  import opened Common
  import opened PagePaths
  import opened PageResolution

  /** `Array.prototype.sort` without a comparator: a fixed order of the strings, whatever order they come in. */
  ghost predicate IsSort(sort: seq<string> -> seq<string>) {
    && (forall lines :: multiset(sort(lines)) == multiset(lines))
    && (forall one, other :: multiset(one) == multiset(other) ==> sort(one) == sort(other))
  }

  /** `JSON.stringify` of an access requirement, whose fields are fixed words and an identifier without blanks. */
  ghost predicate IsDescription(describe: Access -> string) {
    && (forall a :: ' ' !in describe(a) && '\n' !in describe(a))
    && (forall a, b :: describe(a) == describe(b) ==> a == b)
  }

  function Line(page: Page, describe: Access -> string): string {
    page.path + " " + describe(page.access)
  }

  function Lines(pages: seq<Page>, describe: Access -> string): seq<string> {
    seq(|pages|, i requires 0 <= i < |pages| => Line(pages[i], describe))
  }

  /** `lines.join("\n")` */
  function JoinLines(lines: seq<string>): string {
    if lines == [] then ""
    else if |lines| == 1 then lines[0]
    else lines[0] + "\n" + JoinLines(lines[1..])
  }

  function Normalized(pages: seq<Page>, sort: seq<string> -> seq<string>, describe: Access -> string): string {
    JoinLines(sort(Lines(pages, describe)))
  }

  predicate OneLine(pages: seq<Page>) {
    forall i | 0 <= i < |pages| :: '\n' !in pages[i].path
  }

  // ----- Lines determine pages -----

  lemma LastBlank(left: string, a: string)
    requires ' ' !in a
    ensures var all := left + " " + a;
            all[|left|] == ' ' && forall k | |left| < k < |all| :: all[k] != ' '
  {
    var all := left + " " + a;
    assert forall k | |left| < k < |all| :: all[k] == a[k - |left| - 1];
  }

  lemma SameTail(left: string, a: string, right: string, b: string)
    requires ' ' !in a && ' ' !in b && left + " " + a == right + " " + b
    ensures left == right && a == b
  {
    var all := left + " " + a;
    LastBlank(left, a);
    LastBlank(right, b);
    assert left == all[..|left|] && right == all[..|right|];
    assert a == all[|left| + 1..] && b == all[|right| + 1..];
  }

  lemma LineDeterminesPage(one: Page, other: Page, describe: Access -> string)
    requires IsDescription(describe) && Line(one, describe) == Line(other, describe)
    ensures one == other
  {
    SameTail(one.path, describe(one.access), other.path, describe(other.access));
  }

  lemma {:induction false} LinesCount(pages: seq<Page>, describe: Access -> string, page: Page)
    requires IsDescription(describe)
    ensures multiset(Lines(pages, describe))[Line(page, describe)] == multiset(pages)[page]
  {
    if pages != [] {
      var front, last := pages[..|pages| - 1], pages[|pages| - 1];
      LinesCount(front, describe, page);
      assert pages == front + [last];
      assert Lines(pages, describe) == Lines(front, describe) + [Line(last, describe)];
      if last != page && Line(last, describe) == Line(page, describe) {
        LineDeterminesPage(last, page, describe);
      }
    }
  }

  lemma SamePagesIff(one: seq<Page>, other: seq<Page>, describe: Access -> string)
    requires IsDescription(describe)
    ensures multiset(Lines(one, describe)) == multiset(Lines(other, describe)) <==> multiset(one) == multiset(other)
  {
    if multiset(Lines(one, describe)) == multiset(Lines(other, describe)) {
      forall page
        ensures multiset(one)[page] == multiset(other)[page]
      {
        LinesCount(one, describe, page);
        LinesCount(other, describe, page);
      }
    } else if multiset(one) == multiset(other) {
      forall line
        ensures multiset(Lines(one, describe))[line] == multiset(Lines(other, describe))[line]
      {
        if i :| 0 <= i < |one + other| && Line((one + other)[i], describe) == line {
          LinesCount(one, describe, (one + other)[i]);
          LinesCount(other, describe, (one + other)[i]);
        } else {
          NoSuchLine(one, one + other, describe, line);
          NoSuchLine(other, one + other, describe, line);
        }
      }
    }
  }

  lemma NoSuchLine(pages: seq<Page>, all: seq<Page>, describe: Access -> string, line: string)
    requires forall page | page in pages :: page in all
    requires forall i | 0 <= i < |all| :: Line(all[i], describe) != line
    ensures multiset(Lines(pages, describe))[line] == 0
  {
    forall i | 0 <= i < |pages|
      ensures Lines(pages, describe)[i] != line
    {
      assert pages[i] in all;
    }
    assert line !in Lines(pages, describe);
  }

  // ----- Joined lines determine lines -----

  lemma FirstBreak(a: string, x: string)
    requires '\n' !in a
    ensures var all := a + "\n" + x;
            all[|a|] == '\n' && forall k | 0 <= k < |a| :: all[k] != '\n'
  {
    var all := a + "\n" + x;
    assert forall k | 0 <= k < |a| :: all[k] == a[k];
  }

  lemma FirstLine(a: string, b: string, x: string, y: string)
    requires '\n' !in a && '\n' !in b && a + "\n" + x == b + "\n" + y
    ensures a == b && x == y
  {
    var all := a + "\n" + x;
    FirstBreak(a, x);
    FirstBreak(b, y);
    assert a == all[..|a|] && b == all[..|b|];
    assert x == all[|a| + 1..] && y == all[|b| + 1..];
  }

  lemma {:induction false} JoinedLinesAgree(one: seq<string>, other: seq<string>)
    requires forall line | line in one + other :: '\n' !in line && line != ""
    requires JoinLines(one) == JoinLines(other)
    ensures one == other
    decreases |one|
  {
    assert forall i | 0 <= i < |one| :: one[i] in one + other;
    assert forall i | 0 <= i < |other| :: other[i] in one + other;
    if |one| > 1 && |other| > 1 {
      FirstLine(one[0], other[0], JoinLines(one[1..]), JoinLines(other[1..]));
      assert forall line | line in one[1..] + other[1..] :: line in one + other;
      JoinedLinesAgree(one[1..], other[1..]);
      assert one == [one[0]] + one[1..] && other == [other[0]] + other[1..];
    } else if |one| > 1 {
      BreakInside(one);
    } else if |other| > 1 {
      BreakInside(other);
    }
  }

  lemma BreakInside(lines: seq<string>)
    requires |lines| > 1
    ensures '\n' in JoinLines(lines)
  {
    assert JoinLines(lines)[|lines[0]|] == '\n';
  }

  /**
   The check, while no path of a loaded page has a line break: it passes exactly if the pages are the manifest's, in
   any order.
   */
  lemma DriftCheckIff(manifest: seq<Page>, loaded: seq<Page>, sort: seq<string> -> seq<string>, describe: Access -> string)
    requires IsSort(sort) && IsDescription(describe) && OneLine(manifest) && OneLine(loaded)
    ensures Normalized(manifest, sort, describe) == Normalized(loaded, sort, describe) <==> multiset(loaded) == multiset(manifest)
  {
    SamePagesIff(manifest, loaded, describe);
    var one, other := sort(Lines(manifest, describe)), sort(Lines(loaded, describe));
    if JoinLines(one) == JoinLines(other) {
      SortedLinesAreLines(manifest, sort, describe);
      SortedLinesAreLines(loaded, sort, describe);
      JoinedLinesAgree(one, other);
      assert multiset(Lines(manifest, describe)) == multiset(one) == multiset(Lines(loaded, describe));
    }
  }

  /** Exactly when passing the check means having the manifest's pages: if no loaded path has a line break. */
  lemma PassingIsHonestIff(manifest: seq<Page>, loaded: seq<Page>, sort: seq<string> -> seq<string>, describe: Access -> string)
    requires IsSort(sort) && IsDescription(describe) && OneLine(manifest)
    requires Normalized(manifest, sort, describe) == Normalized(loaded, sort, describe)
    ensures multiset(loaded) == multiset(manifest) <==> OneLine(loaded)
  {
    if OneLine(loaded) {
      DriftCheckIff(manifest, loaded, sort, describe);
    } else {
      var i :| 0 <= i < |loaded| && '\n' in loaded[i].path;
      assert loaded[i] in multiset(loaded) && loaded[i] !in manifest;
    }
  }

  lemma SortedLinesAreLines(pages: seq<Page>, sort: seq<string> -> seq<string>, describe: Access -> string)
    requires IsSort(sort) && IsDescription(describe) && OneLine(pages)
    ensures forall line | line in sort(Lines(pages, describe)) :: '\n' !in line && line != ""
  {
    forall line | line in sort(Lines(pages, describe))
      ensures '\n' !in line && line != ""
    {
      assert line in multiset(sort(Lines(pages, describe)));
      assert line in Lines(pages, describe);
    }
  }

  /** With a line break in a path it can pass for other pages: one loaded page that spells two of the manifest's. */
  lemma LineBreakDeceives(a: Page, b: Page, sort: seq<string> -> seq<string>, describe: Access -> string)
    requires IsSort(sort) && a != b && sort(Lines([a, b], describe)) == Lines([a, b], describe)
    ensures var deceiver := Page(Line(a, describe) + "\n" + b.path, b.access);
            && Normalized([deceiver], sort, describe) == Normalized([a, b], sort, describe)
            && multiset([deceiver]) != multiset([a, b])
  {
    var deceiver := Page(Line(a, describe) + "\n" + b.path, b.access);
    var one := Lines([deceiver], describe);
    assert multiset(sort(one)) == multiset(one);
    assert |sort(one)| == |multiset(sort(one))| == 1 && sort(one)[0] in multiset(one);
    assert sort(one) == one == [Line(deceiver, describe)];
    assert Lines([a, b], describe) == [Line(a, describe), Line(b, describe)];
    assert [Line(a, describe), Line(b, describe)][1..] == [Line(b, describe)];
    assert JoinLines(Lines([a, b], describe)) == Line(a, describe) + "\n" + Line(b, describe);
    assert Line(deceiver, describe) == Line(a, describe) + "\n" + Line(b, describe);
    assert |multiset([deceiver])| == 1 && |multiset([a, b])| == 2;
  }

  lemma SegmentIsOneLine(segment: string)
    requires segment == "" || IsStaticSegment(segment) || IsParameterSegment(segment)
    ensures '\n' !in segment
  {
  }

  /** A path that the manifest's pattern allows has no line break. */
  lemma ValidPathIsOneLine(path: string)
    requires ValidPagePath(path)
    ensures '\n' !in path
  {
    CharactersOfSplit(path, '\n');
    if path != "/" {
      hide IsStaticSegment, IsParameterSegment;
      forall i | 0 <= i < |Split(path)|
        ensures '\n' !in Split(path)[i]
      {
        SegmentIsOneLine(Split(path)[i]);
      }
    }
  }

  /** So for a valid manifest the check is the condition under which page resolution does not depend on order. */
  lemma PassingIsWithoutDrift(feature: Feature, entrypoints: Entrypoints, sort: seq<string> -> seq<string>,
                              describe: Access -> string)
    requires IsSort(sort) && IsDescription(describe)
    requires forall page | page in feature.pages :: ValidPagePath(page.path)
    requires OneLine(ManifestPages(entrypoints(feature.id)))
    ensures Normalized(feature.pages, sort, describe) == Normalized(ManifestPages(entrypoints(feature.id)), sort, describe) <==>
            WithoutDrift(feature, entrypoints)
  {
    forall i | 0 <= i < |feature.pages|
      ensures '\n' !in feature.pages[i].path
    {
      ValidPathIsOneLine(feature.pages[i].path);
    }
    hide ValidPagePath;
    DriftCheckIff(feature.pages, ManifestPages(entrypoints(feature.id)), sort, describe);
  }
}
