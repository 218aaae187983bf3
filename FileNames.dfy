/**
 * The two file-name filters of the upload flow: the viewers' gate
 * (`name.toLowerCase().split(".").pop()` must be "stl" or "obj") and the
 * drop zone's case-sensitive `endsWith(".stl") || endsWith(".obj")`.
 */
module FileNames {
  import opened Wrappers

  function LowerChar(c: char): char {
    if 'A' <= c <= 'Z' then (c as int + 32) as char else c
  }

  /** `toLowerCase`, on ASCII letters. */
  function ToLower(s: string): (r: string)
    ensures |r| == |s|
  {
    seq(|s|, i requires 0 <= i < |s| => LowerChar(s[i]))
  }

  /**
   * `s.split(".").pop()`: the longest suffix of s without a '.', which is
   * either all of s or starts just after a '.'.
   */
  function LastSegment(s: string): (r: string)
    ensures '.' !in r
    ensures |r| <= |s| && r == s[|s| - |r|..]
    ensures |r| < |s| ==> s[|s| - |r| - 1] == '.'
  {
    if |s| == 0 then ""
    else if s[|s| - 1] == '.' then ""
    else LastSegment(s[..|s| - 1]) + [s[|s| - 1]]
  }

  /** Whatever precedes a final dot-free segment, the segment is what `pop` returns. */
  lemma {:induction false} LastSegmentAfterDot(t: string, u: string)
    requires '.' !in u
    ensures LastSegment(t + "." + u) == u
  {
    if |u| > 0 {
      var n := |u| - 1;
      assert (t + "." + u)[..|t + "." + u| - 1] == t + "." + u[..n];
      LastSegmentAfterDot(t, u[..n]);
      assert u[..n] + [u[n]] == u;
    } else {
      assert t + "." + u == t + ".";
    }
  }

  lemma {:induction false} LastSegmentNoDot(s: string)
    requires '.' !in s
    ensures LastSegment(s) == s
  {
    if |s| > 0 {
      assert s == s[..|s| - 1] + [s[|s| - 1]];
      LastSegmentNoDot(s[..|s| - 1]);
    }
  }

  predicate EndsWith(s: string, suffix: string) {
    |suffix| <= |s| && s[|s| - |suffix|..] == suffix
  }

  datatype Format = Stl | Obj

  function FormatName(f: Format): string {
    match f
    case Stl => "stl"
    case Obj => "obj"
  }

  /** The viewers' gate: the format named by the lowercased last segment, if it is one of the two. */
  function ViewerFormat(name: string): (r: Option<Format>)
    ensures r.Some? ==> LastSegment(ToLower(name)) == FormatName(r.value)
    ensures r.None? ==> LastSegment(ToLower(name)) != "stl" && LastSegment(ToLower(name)) != "obj"
  {
    var ext := LastSegment(ToLower(name));
    if ext == "stl" then Some(Stl) else if ext == "obj" then Some(Obj) else None
  }

  /** A name the gate lets through for f is f's extension alone or ends with "." and it. */
  lemma ViewerFormatSound(name: string, f: Format)
    requires ViewerFormat(name) == Some(f)
    ensures ToLower(name) == FormatName(f) || EndsWith(ToLower(name), "." + FormatName(f))
  {
    var s, e := ToLower(name), FormatName(f);
    var r := LastSegment(s);
    assert r == e;
    if |r| < |s| {
      assert s[|s| - |e| - 1..] == "." + e;
    }
  }

  /** A lowercased name that is f's extension, or ends with "." and it, passes the gate for f. */
  lemma ViewerFormatComplete(name: string, f: Format)
    requires ToLower(name) == FormatName(f) || EndsWith(ToLower(name), "." + FormatName(f))
    ensures ViewerFormat(name) == Some(f)
  {
    var s, e := ToLower(name), FormatName(f);
    assert '.' !in e;
    if s == e {
      LastSegmentNoDot(s);
    } else {
      var t := s[..|s| - |e| - 1];
      assert s == t + "." + e;
      LastSegmentAfterDot(t, e);
    }
  }

  /** A file passes the viewers' gate for f exactly when its lowercased name is f's extension or ends with "." and it. */
  lemma ViewerFormatIff(name: string, f: Format)
    ensures ViewerFormat(name) == Some(f) <==>
      (ToLower(name) == FormatName(f) || EndsWith(ToLower(name), "." + FormatName(f)))
  {
    if ViewerFormat(name) == Some(f) {
      ViewerFormatSound(name, f);
    }
    if ToLower(name) == FormatName(f) || EndsWith(ToLower(name), "." + FormatName(f)) {
      ViewerFormatComplete(name, f);
    }
  }

  /** The drop zone's filter, case-sensitive. */
  predicate DropAccepts(name: string) {
    EndsWith(name, ".stl") || EndsWith(name, ".obj")
  }

  /** Every name the drop zone accepts also passes the viewers' gate. */
  lemma DropAcceptedIsViewable(name: string)
    requires DropAccepts(name)
    ensures ViewerFormat(name).Some?
  {
    var s := ToLower(name);
    var f := if EndsWith(name, ".stl") then Stl else Obj;
    assert s[|s| - 4..] == ToLower(name[|name| - 4..]);
    assert EndsWith(s, "." + FormatName(f));
    ViewerFormatComplete(name, f);
  }

  /** The converse fails: an upper-case extension passes the gate but not the drop zone. */
  lemma UpperCaseExtension()
    ensures !DropAccepts("MODEL.STL") && ViewerFormat("MODEL.STL") == Some(Stl)
  {
    assert ToLower("MODEL.STL") == "model.stl";
    LastSegmentAfterDot("model", "stl");
    assert "model" + "." + "stl" == "model.stl";
  }
}
