/** `generateSlug` of scripts/sync-notion.js: lower-case the title, turn every maximal run
    of characters other than a-z, 0-9 and the CJK block U+4E00..U+9FFF into one dash,
    strip one dash from each end and keep the first 50 characters. */
module Slug {
  import opened JsString

  /** The characters the pattern `[^a-z0-9一-鿿]` does not match. */
  predicate Allowed(c: char) {
    ('a' <= c <= 'z') || ('0' <= c <= '9') || ('\U{4E00}' <= c <= '\U{9FFF}')
  }

  /** Drops the run of replaced characters that begins the string. */
  function DropRun(s: string): (r: string)
    ensures |r| <= |s| && r == s[|s| - |r|..]
    ensures r == "" || Allowed(r[0])
  {
    if |s| > 0 && !Allowed(s[0]) then DropRun(s[1..]) else s
  }

  /** replace(/[^a-z0-9一-鿿]+/g, '-') */
  function Collapse(s: string): string
    decreases |s|
  {
    if |s| == 0 then ""
    else if Allowed(s[0]) then [s[0]] + Collapse(s[1..])
    else "-" + Collapse(DropRun(s[1..]))
  }

  /** replace(/^-|-$/g, ''): one dash off the front, then one off the back. */
  function StripDashes(s: string): string {
    var a := if |s| > 0 && s[0] == '-' then s[1..] else s;
    if |a| > 0 && a[|a| - 1] == '-' then a[..|a| - 1] else a
  }

  function GenerateSlug(title: string): string {
    Take(StripDashes(Collapse(Lower(title))), 50)
  }

  /** Every character is kept by the pattern or is a dash. */
  predicate SlugChars(s: string) {
    forall i :: 0 <= i < |s| ==> Allowed(s[i]) || s[i] == '-'
  }

  predicate NoDoubleDash(s: string) {
    forall i :: 0 <= i < |s| - 1 ==> !(s[i] == '-' && s[i + 1] == '-')
  }

  /** The characters of `s` the pattern keeps, in order. */
  function Kept(s: string): string {
    if |s| == 0 then ""
    else if Allowed(s[0]) then [s[0]] + Kept(s[1..])
    else Kept(s[1..])
  }

  predicate IsPrefix(a: string, b: string) {
    |a| <= |b| && b[..|a|] == a
  }

  lemma {:induction false} KeptDropRun(s: string)
    ensures Kept(DropRun(s)) == Kept(s)
  {
    if |s| > 0 && !Allowed(s[0]) {
      KeptDropRun(s[1..]);
    }
  }

  lemma {:induction false} KeptAppend(a: string, b: string)
    ensures Kept(a + b) == Kept(a) + Kept(b)
  {
    if |a| > 0 {
      assert (a + b)[1..] == a[1..] + b;
      KeptAppend(a[1..], b);
    } else {
      assert a + b == b;
    }
  }

  /** The result of Collapse: kept characters and single dashes, starting with a kept
      character exactly when the input does, and holding every kept character in order. */
  lemma {:induction false} CollapseShape(s: string)
    ensures var r := Collapse(s);
      && SlugChars(r) && NoDoubleDash(r)
      && (r == "" <==> s == "")
      && (r != "" ==> (Allowed(r[0]) <==> Allowed(s[0])))
      && Kept(r) == Kept(s)
    decreases |s|
  {
    if |s| > 0 {
      var c := s[0];
      if Allowed(c) {
        var t := Collapse(s[1..]);
        CollapseShape(s[1..]);
        ConsShape(c, t);
        KeptCons(c, s[1..]);
      } else {
        var d := DropRun(s[1..]);
        var t := Collapse(d);
        CollapseShape(d);
        ConsShape('-', t);
        KeptDropRun(s[1..]);
        KeptCons(c, s[1..]);
      }
    }
  }

  /** Putting one character in front keeps the slug shape when it makes no double dash. */
  lemma ConsShape(c: char, t: string)
    requires SlugChars(t) && NoDoubleDash(t)
    requires Allowed(c) || (c == '-' && (t == "" || t[0] != '-'))
    ensures var r := [c] + t;
      SlugChars(r) && NoDoubleDash(r) && r[0] == c && r[1..] == t && Kept(r) == Kept([c]) + Kept(t)
  {
    var r := [c] + t;
    assert r[1..] == t;
    assert forall i :: 1 <= i < |r| ==> r[i] == t[i - 1];
  }

  lemma KeptCons(c: char, t: string)
    ensures Kept([c] + t) == (if Allowed(c) then [c] else []) + Kept(t)
  {
    assert ([c] + t)[1..] == t;
  }

  /** Kept characters at the front pass through Collapse unchanged. */
  lemma {:induction false} CollapseKeptPrefix(p: string, t: string)
    requires forall i :: 0 <= i < |p| ==> Allowed(p[i])
    ensures Collapse(p + t) == p + Collapse(t)
  {
    if |p| == 0 {
      assert p + t == t;
    } else {
      var c, rest := p[0], p[1..];
      assert p == [c] + rest;
      assert forall i :: 0 <= i < |rest| ==> Allowed(rest[i]) by {
        forall i | 0 <= i < |rest| ensures Allowed(rest[i]) {
          assert rest[i] == p[i + 1];
        }
      }
      CollapseKeptPrefix(rest, t);
      Associate([c], rest, t);
      CollapseCons(c, rest + t);
      Associate([c], rest, Collapse(t));
    }
  }

  lemma CollapseCons(c: char, r: string)
    requires Allowed(c)
    ensures Collapse([c] + r) == [c] + Collapse(r)
  {
    assert ([c] + r)[1..] == r;
  }

  lemma Associate(a: string, b: string, c: string)
    ensures a + (b + c) == (a + b) + c
  {
  }

  /** A string already in slug form is a fixed point of Collapse. */
  lemma {:induction false} CollapseFixed(s: string)
    requires SlugChars(s) && NoDoubleDash(s)
    ensures Collapse(s) == s
  {
    if |s| > 0 {
      var c, rest := s[0], s[1..];
      assert s == [c] + rest;
      SliceShape(s, 1, |s|);
      CollapseFixed(rest);
      if Allowed(c) {
        CollapseCons(c, rest);
      } else {
        DashThenKept(s);
        CollapseDash(rest);
      }
    }
  }

  lemma DashThenKept(s: string)
    requires SlugChars(s) && NoDoubleDash(s) && |s| > 0 && s[0] == '-'
    ensures s[1..] == "" || Allowed(s[1..][0])
  {
    if |s| > 1 {
      assert s[1] != '-';
    }
  }

  lemma CollapseDash(r: string)
    requires r == "" || Allowed(r[0])
    ensures Collapse("-" + r) == "-" + Collapse(r)
  {
    assert ("-" + r)[1..] == r;
    assert DropRun(r) == r;
  }

  /** StripDashes removes at most a dash at each end and keeps the shape. */
  lemma StripDashesShape(s: string)
    requires SlugChars(s) && NoDoubleDash(s)
    ensures var r := StripDashes(s);
      && (exists i, j :: 0 <= i <= j <= |s| && r == s[i..j])
      && SlugChars(r) && NoDoubleDash(r)
      && (r == "" || (r[0] != '-' && r[|r| - 1] != '-'))
      && Kept(r) == Kept(s)
  {
    var i, j := StripBounds(s);
    SliceShape(s, i, j);
    KeptSlice(s, i, j);
  }

  /** StripDashes cuts at most a leading and a trailing dash, nothing else. */
  lemma StripBounds(s: string) returns (i: nat, j: nat)
    requires NoDoubleDash(s)
    ensures i <= j <= |s| && StripDashes(s) == s[i..j]
    ensures i == 0 || (i == 1 && s[0] == '-')
    ensures j == |s| || (j == |s| - 1 && s[|s| - 1] == '-')
    ensures StripDashes(s) == "" || (s[i] != '-' && s[j - 1] != '-')
  {
    var a := if |s| > 0 && s[0] == '-' then s[1..] else s;
    i := |s| - |a|;
    j := if |a| > 0 && a[|a| - 1] == '-' then |s| - 1 else |s|;
    assert a == s[i..];
    assert StripDashes(s) == s[i..j];
  }

  lemma SliceShape(s: string, i: nat, j: nat)
    requires i <= j <= |s| && SlugChars(s) && NoDoubleDash(s)
    ensures SlugChars(s[i..j]) && NoDoubleDash(s[i..j])
  {
    assert forall k :: 0 <= k < j - i ==> s[i..j][k] == s[i + k];
  }

  /** Cutting a dash off either end drops no kept character. */
  lemma KeptSlice(s: string, i: nat, j: nat)
    requires i <= j <= |s|
    requires i == 0 || (i == 1 && s[0] == '-')
    requires j == |s| || (j == |s| - 1 && s[|s| - 1] == '-')
    ensures Kept(s[i..j]) == Kept(s)
  {
    var a := s[i..];
    if i == 1 {
      KeptDropFront(s);
    } else {
      assert a == s;
    }
    if j < |s| {
      KeptDropBack(a);
      assert a[..|a| - 1] == s[i..j];
    } else {
      assert a == s[i..j];
    }
  }

  lemma KeptDropFront(s: string)
    requires |s| > 0 && s[0] == '-'
    ensures Kept(s[1..]) == Kept(s)
  {
  }

  lemma KeptDropBack(s: string)
    requires |s| > 0 && s[|s| - 1] == '-'
    ensures Kept(s[..|s| - 1]) == Kept(s)
  {
    var init := s[..|s| - 1];
    assert s == init + "-";
    KeptAppend(init, "-");
  }

  /** generateSlug yields at most 50 characters, each a kept character or a dash, with no
      two dashes in a row and no dash at the front; its kept characters are a prefix of
      those of the lower-cased title. */
  lemma SlugShape(title: string)
    ensures var r := GenerateSlug(title);
      && |r| <= 50
      && SlugChars(r) && NoDoubleDash(r)
      && (r == "" || r[0] != '-')
      && IsPrefix(Kept(r), Kept(Lower(title)))
  {
    var c := Collapse(Lower(title));
    CollapseShape(Lower(title));
    StripDashesShape(c);
    var s := StripDashes(c);
    var r := GenerateSlug(title);
    assert s == r + s[|r|..];
    KeptAppend(r, s[|r|..]);
  }

  /** When no truncation happens, no dash ends the slug either and every kept character of
      the lower-cased title is there. */
  lemma SlugWhole(title: string)
    requires |StripDashes(Collapse(Lower(title)))| <= 50
    ensures var r := GenerateSlug(title);
      && (r == "" || r[|r| - 1] != '-')
      && Kept(r) == Kept(Lower(title))
  {
    CollapseShape(Lower(title));
    StripDashesShape(Collapse(Lower(title)));
  }

  /** Lower-casing leaves a string without ASCII capitals alone. */
  lemma LowerKept(s: string)
    requires forall i :: 0 <= i < |s| ==> !('A' <= s[i] <= 'Z')
    ensures Lower(s) == s
  {
  }

  /** The cut at 50 characters can leave a trailing dash: 49 kept characters followed by a
      space and one more kept character give the 49 characters and a dash. */
  lemma TruncationLeavesDash(p: string, c: char)
    requires |p| == 49 && Allowed(c)
    requires forall i :: 0 <= i < |p| ==> Allowed(p[i])
    ensures GenerateSlug(p + " " + [c]) == p + "-"
  {
    var t := p + " " + [c];
    var u := p + ("-" + [c]);
    CollapsedTitle(p, c);
    CutAfterDash(p, c);
    assert GenerateSlug(t) == Take(StripDashes(u), 50);
  }

  lemma CollapsedTitle(p: string, c: char)
    requires Allowed(c)
    requires forall i :: 0 <= i < |p| ==> Allowed(p[i])
    ensures Collapse(Lower(p + " " + [c])) == p + ("-" + [c])
  {
    var tail := " " + [c];
    var t := p + tail;
    assert p + " " + [c] == t;
    forall i | 0 <= i < |t| ensures !('A' <= t[i] <= 'Z') {
      if i < |p| {
        assert t[i] == p[i];
      }
    }
    LowerKept(t);
    CollapseKeptPrefix(p, tail);
    CollapseSpaceThen(c);
  }

  lemma CutAfterDash(p: string, c: char)
    requires |p| == 49 && Allowed(p[0]) && Allowed(c)
    ensures Take(StripDashes(p + ("-" + [c])), 50) == p + "-"
  {
    var u := p + ("-" + [c]);
    assert u[0] == p[0];
    StripNoDash(u);
    assert u[..50] == p + "-";
  }

  lemma StripNoDash(u: string)
    requires u != "" && u[0] != '-' && u[|u| - 1] != '-'
    ensures StripDashes(u) == u
  {
  }

  lemma CollapseSpaceThen(c: char)
    requires Allowed(c)
    ensures Collapse(" " + [c]) == "-" + [c]
  {
    var tail := " " + [c];
    assert tail[1..] == [c];
    assert DropRun([c]) == [c];
    assert Collapse([c]) == [c] + Collapse([c][1..]);
  }

  /** Applying generateSlug to a slug only drops a trailing dash left by the cut. */
  lemma SlugOfSlug(title: string)
    ensures var r := GenerateSlug(title);
      GenerateSlug(r) == if r != "" && r[|r| - 1] == '-' then r[..|r| - 1] else r
  {
    var r := GenerateSlug(title);
    SlugShape(title);
    SlugHasNoCapitals(r);
    LowerKept(r);
    CollapseFixed(r);
    StripNoLead(r);
  }

  lemma SlugHasNoCapitals(r: string)
    requires SlugChars(r)
    ensures forall i :: 0 <= i < |r| ==> !('A' <= r[i] <= 'Z')
  {
  }

  lemma StripNoLead(r: string)
    requires |r| <= 50 && (r == "" || r[0] != '-')
    ensures var stripped := if r != "" && r[|r| - 1] == '-' then r[..|r| - 1] else r;
      Take(StripDashes(r), 50) == stripped
  {
  }
}
