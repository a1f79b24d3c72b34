/** The part of the server configuration that request parsing depends on. */
module Config {
  import opened Wrappers
  import opened Text

  datatype Location = Location(path: string, extension: string, maxBody: nat, maxBuffer: nat)

  /** `pages` holds the status codes for which an error page is configured. */
  datatype ServerConfig = ServerConfig(locations: seq<Location>, maxBuffer: nat, pages: set<string>)

  predicate Contains(s: string, pat: string) {
    IndexOf(s, pat).Some?
  }

  /** `find_last_of` for one character. */
  function LastIndexOf(s: string, c: char): (r: Option<nat>)
    ensures r.Some? ==> r.value < |s| && s[r.value] == c && forall k | r.value < k < |s| :: s[k] != c
    ensures r.None? ==> forall k | 0 <= k < |s| :: s[k] != c
  {
    if s == "" then None
    else if s[|s| - 1] == c then Some(|s| - 1)
    else LastIndexOf(s[..|s| - 1], c)
  }

  function ExtensionOf(path: string): string {
    var dot := LastIndexOf(path, '.');
    var slash := LastIndexOf(path, '/');
    if dot.None? || (slash.Some? && dot.value < slash.value) then "" else path[dot.value + 1..]
  }

  /** A location claims the path by its extension list. */
  predicate ByExtension(l: Location, path: string) {
    ExtensionOf(path) != "" && Contains(l.extension, ExtensionOf(path))
  }

  /** A location claims the path by a non-empty prefix text found anywhere in it. */
  predicate ByPath(l: Location, path: string) {
    l.path != "" && Contains(path, l.path)
  }

  /** The choice the documentation describes: extension first, else the longest path, the earliest winning ties. */
  ghost predicate IsMatch(path: string, locations: seq<Location>, r: Option<Location>) {
    if exists i | 0 <= i < |locations| :: ByExtension(locations[i], path) then
      exists i | 0 <= i < |locations| ::
        ByExtension(locations[i], path) && r == Some(locations[i]) &&
        forall j | 0 <= j < i :: !ByExtension(locations[j], path)
    else if exists i | 0 <= i < |locations| :: ByPath(locations[i], path) then
      exists i | 0 <= i < |locations| ::
        ByPath(locations[i], path) && r == Some(locations[i]) &&
        (forall j | 0 <= j < |locations| :: ByPath(locations[j], path) ==>
          |locations[j].path| <= |locations[i].path|) &&
        (forall j | 0 <= j < i :: ByPath(locations[j], path) ==> |locations[j].path| < |locations[i].path|)
    else r.None?
  }

  function FirstByExtension(path: string, locations: seq<Location>): Option<Location> {
    if locations == [] then None
    else if ByExtension(locations[0], path) then Some(locations[0])
    else FirstByExtension(path, locations[1..])
  }

  function LongestByPath(path: string, locations: seq<Location>): (r: Option<Location>)
    ensures r.Some? ==> r.value.path != ""
  {
    if locations == [] then None
    else
      var n := |locations| - 1;
      var best := LongestByPath(path, locations[..n]);
      var bestLength := if best.Some? then |best.value.path| else 0;
      if Contains(path, locations[n].path) && |locations[n].path| > bestLength then Some(locations[n]) else best
  }

  function MatchLocation(path: string, locations: seq<Location>): Option<Location> {
    var byExtension := FirstByExtension(path, locations);
    if byExtension.Some? then byExtension else LongestByPath(path, locations)
  }

  lemma {:induction false} FirstByExtensionIs(path: string, locations: seq<Location>, i: nat)
    requires i <= |locations|
    requires forall j | 0 <= j < i :: !ByExtension(locations[j], path)
    ensures FirstByExtension(path, locations) == FirstByExtension(path, locations[i..])
  {
    if i > 0 {
      FirstByExtensionIs(path, locations[1..], i - 1);
      assert locations[1..][i - 1..] == locations[i..];
    } else {
      assert locations[0..] == locations;
    }
  }

  lemma {:induction false} FirstByExtensionAt(path: string, locations: seq<Location>) returns (i: nat)
    ensures i <= |locations| && forall j | 0 <= j < i :: !ByExtension(locations[j], path)
    ensures FirstByExtension(path, locations) == if i < |locations| then Some(locations[i]) else None
    ensures i < |locations| ==> ByExtension(locations[i], path)
  {
    i := 0;
    if locations != [] && !ByExtension(locations[0], path) {
      i := FirstByExtensionAt(path, locations[1..]);
      i := i + 1;
    }
  }

  lemma {:induction false} NoneByPath(path: string, locations: seq<Location>)
    requires LongestByPath(path, locations).None?
    ensures forall j | 0 <= j < |locations| :: !ByPath(locations[j], path)
  {
    if locations != [] {
      var n := |locations| - 1;
      NoneByPath(path, locations[..n]);
      assert forall j | 0 <= j < n :: locations[..n][j] == locations[j];
    }
  }

  lemma {:induction false} LongestByPathAt(path: string, locations: seq<Location>) returns (i: nat)
    requires LongestByPath(path, locations).Some?
    ensures i < |locations| && LongestByPath(path, locations) == Some(locations[i]) && ByPath(locations[i], path)
    ensures forall j | 0 <= j < |locations| :: ByPath(locations[j], path) ==> |locations[j].path| <= |locations[i].path|
    ensures forall j | 0 <= j < i :: ByPath(locations[j], path) ==> |locations[j].path| < |locations[i].path|
  {
    var n := |locations| - 1;
    var shorter := locations[..n];
    assert forall j | 0 <= j < n :: shorter[j] == locations[j];
    if LongestByPath(path, shorter).None? {
      NoneByPath(path, shorter);
      i := n;
    } else {
      i := LongestByPathAt(path, shorter);
      if Contains(path, locations[n].path) && |locations[n].path| > |locations[i].path| {
        i := n;
      }
    }
  }

  /** `getMatchLocation` meets the documented choice on every path and every list. */
  lemma MatchLocationIsMatch(path: string, locations: seq<Location>)
    ensures IsMatch(path, locations, MatchLocation(path, locations))
  {
    var i := FirstByExtensionAt(path, locations);
    if i == |locations| {
      if LongestByPath(path, locations).Some? {
        var k := LongestByPathAt(path, locations);
      } else {
        NoneByPath(path, locations);
      }
    }
  }

  /** `getMatchLocation`: one loop over the extensions, then one over the paths. */
  method GetMatchLocation(path: string, locations: seq<Location>) returns (r: Option<Location>)
    ensures r == MatchLocation(path, locations)
    ensures IsMatch(path, locations, r)
  {
    MatchLocationIsMatch(path, locations);
    var ext := ExtensionOf(path);
    if ext != "" {
      for i := 0 to |locations|
        invariant forall j | 0 <= j < i :: !ByExtension(locations[j], path)
      {
        if Contains(locations[i].extension, ext) {
          FirstByExtensionIs(path, locations, i);
          return Some(locations[i]);
        }
      }
    }
    FirstByExtensionIs(path, locations, |locations|);
    r := None;
    var matchLength := 0;
    for i := 0 to |locations|
      invariant r == LongestByPath(path, locations[..i])
      invariant matchLength == if r.Some? then |r.value.path| else 0
    {
      assert locations[..i + 1][..i] == locations[..i];
      if Contains(path, locations[i].path) && |locations[i].path| > matchLength {
        r := Some(locations[i]);
        matchLength := |locations[i].path|;
      }
    }
    assert locations[..|locations|] == locations;
  }
}
