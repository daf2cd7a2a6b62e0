/** When a path matches a template and what it binds, and which capability a page needs, each written out. */
module PageLaws {
  import opened Common
  import opened PagePaths
  import opened PageResolution

  /** A path matches a valid template if each segment is the template's, or any text where a parameter stands. */
  lemma ValidTemplateMatchesIff(template: string, path: string)
    requires ValidPagePath(template)
    ensures PathMatches(template, path) <==>
            && |Split(template)| == |Split(path)|
            && forall i | 0 <= i < |Split(template)| ::
                 if '[' in Split(template)[i] then Split(path)[i] != "" else Split(path)[i] == Split(template)[i]
  {
    var t, p := Split(template), Split(path);
    hide Split, PathMatches;
    if |t| == |p| {
      forall i | 0 <= i < |t|
        ensures SegmentMatches(t[i], p[i]) <==> if '[' in t[i] then p[i] != "" else p[i] == t[i]
      {
        ValidSegmentShape(template, i);
        SegmentMatchesIff(t[i], p[i]);
      }
    }
    MatchesBySegments(template, path);
  }

  lemma MatchesBySegments(template: string, path: string)
    ensures PathMatches(template, path) <==>
            && |Split(template)| == |Split(path)|
            && forall i | 0 <= i < |Split(template)| :: SegmentMatches(Split(template)[i], Split(path)[i])
  {
  }

  /** A segment of a valid path is a parameter in brackets, or has no bracket. */
  predicate Shaped(segment: string) {
    if '[' in segment then |segment| >= 3 && segment[0] == '[' && segment[|segment| - 1] == ']' else true
  }

  lemma ValidSegmentShape(path: string, i: nat)
    requires ValidPagePath(path) && i < |Split(path)|
    ensures Shaped(Split(path)[i])
  {
    if path == "/" {
      assert Split("") == [""] && Split("/") == ["", ""];
    } else if i > 0 && IsStaticSegment(Split(path)[i]) {
      assert forall k | 0 <= k < |Split(path)[i]| :: Split(path)[i][k] != '[';
    }
  }

  lemma SegmentMatchesIff(template: string, value: string)
    requires Shaped(template)
    ensures SegmentMatches(template, value) <==> if '[' in template then value != "" else value == template
  {
  }

  /** Nothing is bound but a parameter whose segment differs from the template's, and that to its segment. */
  lemma {:induction false} BoundNames(t: seq<string>, p: seq<string>, n: nat, name: string) returns (i: nat)
    requires n <= |t| == |p| && forall k | 0 <= k < n :: SegmentMatches(t[k], p[k])
    requires name in Parameters(t, p, n)
    ensures i < n && t[i] != p[i] && t[i] == "[" + name + "]" && Parameters(t, p, n)[name] == p[i]
  {
    assert SegmentMatches(t[n - 1], p[n - 1]);
    if t[n - 1] != p[n - 1] && ParameterName(t[n - 1]) == name {
      i := n - 1;
    } else {
      i := BoundNames(t, p, n - 1, name);
    }
  }

  /** A feature declares what its pages need: the public-page capability for a public page, and for any other the other. */
  lemma CapabilitiesDeclaredIff(feature: Feature)
    ensures CapabilitiesDeclared(feature) <==>
            && ((exists page :: page in feature.pages && page.access == PublicAccess) ==>
                  "public-page" in feature.capabilities)
            && ((exists page :: page in feature.pages && page.access != PublicAccess) ==>
                  "authenticated-page" in feature.capabilities)
  {
  }

  /** Two templates conflict if they are equal, or both have parameters and agree wherever neither has one. */
  lemma ConflictsIff(one: string, other: string)
    requires ValidPagePath(one) && ValidPagePath(other)
    ensures Conflicts(one, other) <==>
            || one == other
            || (&& '[' in one && '[' in other && |Split(one)| == |Split(other)|
                && forall i | 0 <= i < |Split(one)| ::
                     '[' !in Split(one)[i] && '[' !in Split(other)[i] ==> Split(one)[i] == Split(other)[i])
  {
    var l, r := Split(one), Split(other);
    if |l| == |r| {
      forall i | 0 <= i < |l|
        ensures StartsWithBracket(l[i]) <==> '[' in l[i]
        ensures StartsWithBracket(r[i]) <==> '[' in r[i]
      {
        ValidSegmentShape(one, i);
        ValidSegmentShape(other, i);
      }
    }
    hide Split, ValidPagePath, StartsWithBracket;
  }

  // ----- The pattern of page paths -----

  predicate Word(w: string) {
    w != "" && forall k | 0 <= k < |w| :: ('a' <= w[k] && w[k] <= 'z') || ('0' <= w[k] && w[k] <= '9')
  }

  function Dashed(words: seq<string>): string
    requires words != []
  {
    if |words| == 1 then words[0] else words[0] + "-" + Dashed(words[1..])
  }

  ghost predicate AllWords(words: seq<string>) {
    words != [] && forall k | 0 <= k < |words| :: Word(words[k])
  }

  /** A segment without a parameter consists of words with single dashes between them. */
  lemma {:induction false} DashedIsStatic(words: seq<string>)
    requires AllWords(words)
    ensures IsStaticSegment(Dashed(words))
  {
    assert Word(words[0]);
    if |words| > 1 {
      var w, rest := words[0], Dashed(words[1..]);
      DashedIsStatic(words[1..]);
      assert rest[0] != '-';
      var s := w + "-" + rest;
      assert forall i | 0 <= i < |w| :: s[i] == w[i];
      assert forall i | 0 <= i < |rest| :: s[|w| + 1 + i] == rest[i];
      forall i | 0 <= i < |s|
        ensures IsLowerOrDigit(s[i]) || (s[i] == '-' && 0 < i < |s| - 1 && s[i + 1] != '-')
      {
        if i > |w| {
          var j := i - |w| - 1;
          assert s[i] == rest[j] && (j < |rest| - 1 ==> s[i + 1] == rest[j + 1]);
        }
      }
    }
  }

  lemma {:induction false} StaticIsDashed(s: string) returns (words: seq<string>)
    requires IsStaticSegment(s)
    ensures AllWords(words) && s == Dashed(words)
    decreases |s|
  {
    if k :| 0 <= k < |s| && s[k] == '-' && forall i | 0 <= i < k :: s[i] != '-' {
      var w, rest := s[..k], s[k + 1..];
      assert Word(w);
      forall i | 0 <= i < |rest|
        ensures IsLowerOrDigit(rest[i]) || (rest[i] == '-' && 0 < i < |rest| - 1 && rest[i + 1] != '-')
      {
        assert rest[i] == s[k + 1 + i];
      }
      var others := StaticIsDashed(rest);
      words := [w] + others;
      assert words[1..] == others && s == w + "-" + rest;
    } else {
      FirstDash(s);
      words := [s];
      assert Word(s);
    }
  }

  lemma FirstDash(s: string)
    ensures '-' in s ==> exists k :: 0 <= k < |s| && s[k] == '-' && forall i | 0 <= i < k :: s[i] != '-'
  {
    if '-' in s {
      var k := 0;
      while s[k] != '-'
        invariant 0 <= k < |s| && '-' in s[k..]
        invariant forall i | 0 <= i < k :: s[i] != '-'
        decreases |s| - k
      {
        assert s[k..] == [s[k]] + s[k + 1..];
        k := k + 1;
      }
    }
  }

  /** A parameter is a name in brackets: a small letter, then letters and digits. */
  lemma ParameterIff(s: string)
    ensures IsParameterSegment(s) <==> exists name: string :: Name(name) && s == "[" + name + "]"
  {
    if IsParameterSegment(s) {
      var name := s[1..|s| - 1];
      assert Name(name) && s == "[" + name + "]";
    }
    if name :| Name(name) && s == "[" + name + "]" {
      assert forall i | 0 <= i < |name| :: s[i + 1] == name[i];
    }
  }

  predicate Name(name: string) {
    && name != "" && 'a' <= name[0] && name[0] <= 'z'
    && forall k | 0 < k < |name| ::
         || ('a' <= name[k] && name[k] <= 'z') || ('A' <= name[k] && name[k] <= 'Z') || ('0' <= name[k] && name[k] <= '9')
  }

  ghost predicate Segment(s: string) {
    || (exists words: seq<string> :: AllWords(words) && s == Dashed(words))
    || (exists name: string :: Name(name) && s == "[" + name + "]")
  }

  lemma SegmentIff(s: string)
    ensures Segment(s) <==> IsStaticSegment(s) || IsParameterSegment(s)
  {
    ParameterIff(s);
    if IsStaticSegment(s) {
      var words := StaticIsDashed(s);
    }
    if words: seq<string> :| AllWords(words) && s == Dashed(words) {
      DashedIsStatic(words);
    }
  }

  /** The pattern: a slash alone, or segments each after a slash. */
  lemma ValidPagePathIff(path: string)
    ensures ValidPagePath(path) <==>
            || path == "/"
            || exists segments: seq<string> :: Segments(segments) && path == "/" + JoinSegments(segments)
  {
    JoinOfSplit(path);
    if ValidPagePath(path) && path != "/" {
      var segments := Split(path)[1..];
      forall k | 0 <= k < |segments|
        ensures Segment(segments[k])
      {
        SegmentIff(Split(path)[k + 1]);
      }
      assert Segments(segments) && path == "/" + JoinSegments(segments);
    }
    if segments: seq<string> :| Segments(segments) && path == "/" + JoinSegments(segments) {
      SegmentsAreSplit(segments);
    }
  }

  ghost predicate Segments(segments: seq<string>) {
    segments != [] && forall k | 0 <= k < |segments| :: Segment(segments[k])
  }

  lemma SegmentsAreSplit(segments: seq<string>)
    requires Segments(segments)
    ensures ValidPagePath("/" + JoinSegments(segments))
  {
    forall k | 0 <= k < |segments|
      ensures IsStaticSegment(segments[k]) || IsParameterSegment(segments[k])
      ensures '/' !in segments[k]
    {
      SegmentIff(segments[k]);
    }
    SplitOfJoin(segments);
    var path := "/" + JoinSegments(segments);
    assert path[1..] == JoinSegments(segments);
    assert Split(path) == [""] + segments;
  }
}
