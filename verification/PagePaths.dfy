/** Page paths: templates, their segments, and when a concrete path matches one. */
module PagePaths {
  import opened Common

  /** `path.split("/")` */
  function Split(path: string): (segments: seq<string>)
    ensures segments != []
  {
    if path == "" then [""]
    else
      var rest := Split(path[1..]);
      if path[0] == '/' then [""] + rest else [[path[0]] + rest[0]] + rest[1..]
  }

  function JoinSegments(segments: seq<string>): string
    requires segments != []
  {
    if |segments| == 1 then segments[0] else segments[0] + "/" + JoinSegments(segments[1..])
  }

  lemma {:induction false} JoinOfSplit(path: string)
    ensures JoinSegments(Split(path)) == path
  {
    if path != "" {
      JoinOfSplit(path[1..]);
      var rest := Split(path[1..]);
      assert path == [path[0]] + path[1..];
      if path[0] == '/' {
        assert ([""] + rest)[1..] == rest;
      } else {
        var segments := [[path[0]] + rest[0]] + rest[1..];
        assert Split(path) == segments && segments[1..] == rest[1..];
        if |rest| == 1 {
          assert segments == [[path[0]] + rest[0]];
        }
      }
    }
  }

  /** A path is a character of one of its segments, or a separator. */
  lemma {:induction false} CharactersOfSplit(path: string, c: char)
    requires c != '/'
    ensures c in path <==> exists i | 0 <= i < |Split(path)| :: c in Split(path)[i]
  {
    if path != "" {
      var tail, segments := Split(path[1..]), Split(path);
      CharactersOfSplit(path[1..], c);
      assert path == [path[0]] + path[1..];
      if path[0] == '/' {
        assert forall i | 0 <= i < |tail| :: segments[i + 1] == tail[i];
        if i :| 0 <= i < |tail| && c in tail[i] {
          assert c in segments[i + 1];
        }
        if i :| 0 <= i < |segments| && c in segments[i] {
          assert c in tail[i - 1];
        }
      } else {
        assert segments[0] == [path[0]] + tail[0];
        assert forall i | 1 <= i < |tail| :: segments[i] == tail[i];
        if c == path[0] {
          assert c in segments[0];
        }
        if i :| 0 <= i < |tail| && c in tail[i] {
          assert c in segments[i];
        }
      }
    }
  }

  // ----- Valid templates -----

  predicate IsLowerOrDigit(c: char) {
    'a' <= c <= 'z' || '0' <= c <= '9'
  }

  /** `[a-z0-9]+(?:-[a-z0-9]+)*` */
  predicate IsStaticSegment(s: string) {
    && s != ""
    && (forall i | 0 <= i < |s| :: IsLowerOrDigit(s[i]) || (s[i] == '-' && 0 < i < |s| - 1 && s[i + 1] != '-'))
  }

  /** `\[[a-z][A-Za-z0-9]*\]` */
  predicate IsParameterSegment(s: string) {
    && |s| >= 3 && s[0] == '[' && s[|s| - 1] == ']'
    && 'a' <= s[1] <= 'z'
    && forall i | 2 <= i < |s| - 1 :: IsLowerOrDigit(s[i]) || 'A' <= s[i] <= 'Z'
  }

  /** The manifest's pattern for page paths: a lone slash, or non-empty segments after a leading slash. */
  predicate ValidPagePath(path: string) {
    var segments := Split(path);
    || path == "/"
    || (|segments| >= 2 && segments[0] == "" &&
        forall i | 1 <= i < |segments| :: IsStaticSegment(segments[i]) || IsParameterSegment(segments[i]))
  }

  // ----- Matching -----

  predicate StartsWithBracket(s: string) {
    s != "" && s[0] == '['
  }

  predicate SegmentMatches(template: string, value: string) {
    || template == value
    || (template != "" && value != "" && StartsWithBracket(template) && template[|template| - 1] == ']')
  }

  predicate PathMatches(template: string, path: string) {
    var t, p := Split(template), Split(path);
    |t| == |p| && forall i | 0 <= i < |t| :: SegmentMatches(t[i], p[i])
  }

  /** The parameters bound by the first `n` segments; a segment equal to its own template binds nothing. */
  function Parameters(t: seq<string>, p: seq<string>, n: nat): map<string, string>
    requires n <= |t| == |p|
    requires forall i | 0 <= i < n :: SegmentMatches(t[i], p[i])
  {
    if n == 0 then map[]
    else
      var before := Parameters(t, p, n - 1);
      assert SegmentMatches(t[n - 1], p[n - 1]);
      if t[n - 1] == p[n - 1] then before else before[ParameterName(t[n - 1]) := p[n - 1]]
  }

  /** `template.slice(1, -1)` */
  function ParameterName(template: string): string
    requires StartsWithBracket(template)
  {
    if |template| == 1 then "" else template[1..|template| - 1]
  }

  method MatchPage(template: string, path: string) returns (params: Option<map<string, string>>)
    ensures params.Some? <==> PathMatches(template, path)
    ensures params.Some? ==> params.value == Parameters(Split(template), Split(path), |Split(path)|)
  {
    var t, p := Split(template), Split(path);
    if |t| != |p| {
      return None;
    }
    var bound: map<string, string> := map[];
    for index := 0 to |t|
      invariant forall i | 0 <= i < index :: SegmentMatches(t[i], p[i])
      invariant bound == Parameters(t, p, index)
    {
      if t[index] == p[index] {
        continue;
      }
      if t[index] == "" || p[index] == "" {
        return None;
      }
      if StartsWithBracket(t[index]) && t[index][|t[index]| - 1] == ']' {
        bound := bound[ParameterName(t[index]) := p[index]];
        continue;
      }
      return None;
    }
    return Some(bound);
  }

  /** The parameter names of a template are pairwise different: the manifest's refinement. */
  ghost predicate DistinctNames(t: seq<string>) {
    forall i, j | 0 <= i < j < |t| && StartsWithBracket(t[i]) && StartsWithBracket(t[j]) ::
      ParameterName(t[i]) != ParameterName(t[j])
  }

  /**
   Matching binds every parameter of the template to the segment in its place, except a segment that spells the
   template itself.
   */
  lemma {:induction false} ParametersBind(t: seq<string>, p: seq<string>, n: nat, i: nat)
    requires i < n <= |t| == |p| && DistinctNames(t)
    requires forall k | 0 <= k < n :: SegmentMatches(t[k], p[k])
    requires StartsWithBracket(t[i])
    ensures var name := ParameterName(t[i]);
            if t[i] == p[i] then name !in Parameters(t, p, n)
            else name in Parameters(t, p, n) && Parameters(t, p, n)[name] == p[i]
  {
    if i == n - 1 {
      NamesAreBoundBefore(t, p, n - 1, i);
    } else {
      ParametersBind(t, p, n - 1, i);
    }
  }

  lemma {:induction false} NamesAreBoundBefore(t: seq<string>, p: seq<string>, n: nat, i: nat)
    requires n <= i < |t| == |p| && DistinctNames(t) && StartsWithBracket(t[i])
    requires forall k | 0 <= k < n :: SegmentMatches(t[k], p[k])
    ensures ParameterName(t[i]) !in Parameters(t, p, n)
  {
    if n > 0 {
      NamesAreBoundBefore(t, p, n - 1, i);
    }
  }

  // ----- Static and dynamic templates -----

  function DynamicSegments(segments: seq<string>): nat {
    if segments == [] then 0
    else (if StartsWithBracket(segments[0]) then 1 else 0) + DynamicSegments(segments[1..])
  }

  function DynamicSegmentCount(path: string): nat {
    DynamicSegments(Split(path))
  }

  lemma {:induction false} NoDynamicSegments(segments: seq<string>)
    ensures DynamicSegments(segments) == 0 <==> forall i | 0 <= i < |segments| :: !StartsWithBracket(segments[i])
  {
    if segments != [] {
      NoDynamicSegments(segments[1..]);
      assert forall i | 0 <= i < |segments| - 1 :: segments[1..][i] == segments[i + 1];
      if DynamicSegments(segments) == 0 {
        forall i | 0 <= i < |segments|
          ensures !StartsWithBracket(segments[i])
        {
          if i > 0 {
            assert !StartsWithBracket(segments[1..][i - 1]);
          }
        }
      } else if !StartsWithBracket(segments[0]) {
        var i :| 0 <= i < |segments[1..]| && StartsWithBracket(segments[1..][i]);
        assert StartsWithBracket(segments[i + 1]);
      }
    }
  }

  /** `path.includes("[")`, which the boot check asks, agrees with the count the registry sorts by. */
  lemma BracketIffDynamic(path: string)
    requires ValidPagePath(path)
    ensures '[' in path <==> DynamicSegmentCount(path) > 0
  {
    var segments := Split(path);
    CharactersOfSplit(path, '[');
    NoDynamicSegments(segments);
    if path == "/" {
      assert Split("") == [""] && Split("/") == ["", ""];
    }
    forall i | 0 <= i < |segments|
      ensures '[' in segments[i] <==> StartsWithBracket(segments[i])
    {
      if path != "/" && i > 0 && IsStaticSegment(segments[i]) {
        assert forall k | 0 <= k < |segments[i]| :: segments[i][k] != '[';
      }
    }
  }

  // ----- Overlap -----

  predicate Overlaps(left: string, right: string) {
    var l, r := Split(left), Split(right);
    |l| == |r| && forall i | 0 <= i < |l| :: l[i] == r[i] || StartsWithBracket(l[i]) || StartsWithBracket(r[i])
  }

  predicate Conflicts(one: string, other: string) {
    one == other || ('[' in one && '[' in other && Overlaps(one, other))
  }

  /** Two templates that match one path overlap. */
  lemma CommonMatchOverlaps(one: string, other: string, path: string)
    requires PathMatches(one, path) && PathMatches(other, path)
    ensures Overlaps(one, other)
  {
    var l, r, p := Split(one), Split(other), Split(path);
    forall i | 0 <= i < |l|
      ensures l[i] == r[i] || StartsWithBracket(l[i]) || StartsWithBracket(r[i])
    {
      assert SegmentMatches(l[i], p[i]) && SegmentMatches(r[i], p[i]);
    }
  }

  /** A template without parameters matches exactly the path that it spells. */
  lemma StaticMatchesItself(template: string, path: string)
    requires DynamicSegmentCount(template) == 0
    ensures PathMatches(template, path) <==> template == path
  {
    NoDynamicSegments(Split(template));
    JoinOfSplit(template);
    JoinOfSplit(path);
    if PathMatches(template, path) {
      forall i | 0 <= i < |Split(template)|
        ensures Split(template)[i] == Split(path)[i]
      {
        assert SegmentMatches(Split(template)[i], Split(path)[i]);
      }
      assert Split(template) == Split(path);
    }
  }

  lemma ValidSegments(path: string, i: nat)
    requires ValidPagePath(path) && '[' in path && i < |Split(path)|
    ensures i == 0 ==> Split(path)[i] == ""
    ensures i > 0 ==> Split(path)[i] != ""
    ensures StartsWithBracket(Split(path)[i]) ==> i > 0 && Split(path)[i][|Split(path)[i]| - 1] == ']'
  {
    assert path != "/";
    if i > 0 && IsStaticSegment(Split(path)[i]) {
      assert Split(path)[i][0] != '[';
    }
  }

  lemma {:induction false} NoSlashInSegments(path: string, i: nat)
    requires i < |Split(path)|
    ensures '/' !in Split(path)[i]
  {
    if path != "" {
      var rest := Split(path[1..]);
      if path[0] == '/' {
        if i > 0 {
          NoSlashInSegments(path[1..], i - 1);
          assert Split(path)[i] == rest[i - 1];
        }
      } else {
        NoSlashInSegments(path[1..], i);
        assert Split(path)[i] == if i == 0 then [path[0]] + rest[0] else rest[i];
      }
    }
  }

  lemma {:induction false} SplitOfSegment(segment: string, tail: string)
    requires '/' !in segment
    ensures Split(segment) == [segment]
    ensures Split(segment + "/" + tail) == [segment] + Split(tail)
  {
    if segment == "" {
      assert segment + "/" + tail == "/" + tail && ("/" + tail)[1..] == tail;
    } else {
      SplitOfSegment(segment[1..], tail);
      assert segment == [segment[0]] + segment[1..];
      assert (segment + "/" + tail)[1..] == segment[1..] + "/" + tail;
    }
  }

  lemma {:induction false} SplitOfJoin(segments: seq<string>)
    requires segments != [] && forall i | 0 <= i < |segments| :: '/' !in segments[i]
    ensures Split(JoinSegments(segments)) == segments
  {
    if |segments| == 1 {
      SplitOfSegment(segments[0], "");
    } else {
      SplitOfJoin(segments[1..]);
      SplitOfSegment(segments[0], JoinSegments(segments[1..]));
    }
  }

  /** A segment that both templates match in this place, itself without parameters. */
  function CommonSegment(left: string, right: string): string {
    if !StartsWithBracket(left) then left else if !StartsWithBracket(right) then right else "x"
  }

  lemma CommonSegmentMatches(one: string, other: string, i: nat)
    requires ValidPagePath(one) && ValidPagePath(other) && '[' in one && '[' in other && Conflicts(one, other)
    requires i < |Split(one)| == |Split(other)|
    ensures var segment := CommonSegment(Split(one)[i], Split(other)[i]);
            && SegmentMatches(Split(one)[i], segment) && SegmentMatches(Split(other)[i], segment)
            && '/' !in segment && !StartsWithBracket(segment)
  {
    ValidSegments(one, i);
    ValidSegments(other, i);
    NoSlashInSegments(one, i);
    NoSlashInSegments(other, i);
  }

  /**
   Conflict is ambiguity: two valid templates with parameters that conflict both match a concrete path without
   parameters.
   */
  lemma ConflictHasCommonMatch(one: string, other: string) returns (path: string)
    requires ValidPagePath(one) && ValidPagePath(other) && '[' in one && '[' in other && Conflicts(one, other)
    ensures PathMatches(one, path) && PathMatches(other, path) && DynamicSegmentCount(path) == 0
  {
    var l, r := Split(one), Split(other);
    assert |l| == |r|;
    var segments := seq(|l|, i requires 0 <= i < |l| && |l| == |r| => CommonSegment(l[i], r[i]));
    forall i | 0 <= i < |segments|
      ensures SegmentMatches(l[i], segments[i]) && SegmentMatches(r[i], segments[i])
      ensures '/' !in segments[i] && !StartsWithBracket(segments[i])
    {
      CommonSegmentMatches(one, other, i);
    }
    path := JoinSegments(segments);
    SplitOfJoin(segments);
    NoDynamicSegments(segments);
  }
}
