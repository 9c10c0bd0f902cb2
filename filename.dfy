/** The screenshot file name built in the capture loop of server.js:
    hostname and pathname have filesystem-unsafe characters replaced by `-`
    and are lower-cased, then
    `${hostname}${pathname}-${mode.name}-${Date.now()}.png`
    has runs of `-` collapsed, a leading and a trailing `-` removed, and
    the first `-.png` rewritten to `.png`. The URL parser, `Date.now()` and
    the home directory are inputs. */
module FileName {
  import opened TextUtil
  import opened Protocol

  /** The class `[\\/?%*:|"<>\s]` of the sanitising regular expression. */
  predicate IsUnsafe(c: char)
  {
    c == '\\' || c == '/' || c == '?' || c == '%' || c == '*' || c == ':' ||
    c == '|' || c == '"' || c == '<' || c == '>' || IsJsSpace(c)
  }

  /** A character that may appear in a produced file name. */
  predicate IsGood(c: char)
  {
    !IsUnsafe(c) && !IsAsciiUpper(c)
  }

  predicate AllGood(s: string)
  {
    forall i :: 0 <= i < |s| ==> IsGood(s[i])
  }

  /** No two adjacent dashes. */
  predicate NoDoubleDash(s: string)
  {
    forall i :: 0 <= i < |s| - 1 ==> !(s[i] == '-' && s[i + 1] == '-')
  }

  /** `part.replace(/[\\/?%*:|"<>\s]/gi, '-').toLowerCase()`, with the case
      mapping restricted to ASCII. */
  function SanitizePart(s: string): (r: string)
    ensures |r| == |s| && AllGood(r)
    ensures forall i :: 0 <= i < |s| ==> (if IsUnsafe(s[i]) then r[i] == '-' else r[i] == AsciiLower(s[i]))
  {
    seq(|s|, i requires 0 <= i < |s| => if IsUnsafe(s[i]) then '-' else AsciiLower(s[i]))
  }

  /** `.replace(/-+/g, '-')` */
  function Collapse(s: string): (r: string)
    ensures NoDoubleDash(r)
    ensures |r| <= |s|
    ensures |s| > 0 ==> |r| > 0 && r[0] == s[0]
    ensures forall c :: c in r ==> c in s
    decreases |s|
  {
    if |s| < 2 then s
    else if s[0] == '-' && s[1] == '-' then Collapse(s[1..])
    else
      var t := Collapse(s[1..]);
      assert forall i :: 1 <= i < |[s[0]] + t| ==> ([s[0]] + t)[i] == t[i - 1];
      [s[0]] + t
  }

  /** `s` with every `-` removed. */
  function WithoutDashes(s: string): string
    decreases |s|
  {
    if s == [] then [] else (if s[0] == '-' then [] else [s[0]]) + WithoutDashes(s[1..])
  }

  /** Collapsing removes dashes and nothing else. */
  lemma {:induction false} CollapseRemovesOnlyDashes(s: string)
    ensures WithoutDashes(Collapse(s)) == WithoutDashes(s)
    decreases |s|
  {
    if |s| >= 2 {
      CollapseRemovesOnlyDashes(s[1..]);
      if !(s[0] == '-' && s[1] == '-') {
        assert ([s[0]] + Collapse(s[1..]))[1..] == Collapse(s[1..]);
      }
    }
  }

  /** A string without `--` is left as it is, so collapsing twice is
      collapsing once. */
  lemma {:induction false} CollapseFixesDashFree(s: string)
    requires NoDoubleDash(s)
    ensures Collapse(s) == s
    decreases |s|
  {
    if |s| >= 2 {
      assert NoDoubleDash(s[1..]) by {
        forall i | 0 <= i < |s[1..]| - 1 ensures !(s[1..][i] == '-' && s[1..][i + 1] == '-') {
          assert s[1..][i] == s[i + 1] && s[1..][i + 1] == s[i + 2];
        }
      }
      CollapseFixesDashFree(s[1..]);
      assert s == [s[0]] + s[1..];
    }
  }

  lemma CollapseIdempotent(s: string)
    ensures Collapse(Collapse(s)) == Collapse(s)
  {
    CollapseFixesDashFree(Collapse(s));
  }

  /** Reading left to right, drop every dash that comes right after a
      dash, so that each run of dashes leaves exactly one; `afterDash`
      says whether the character before `s` was a dash. */
  function DropRepeatedDashes(s: string, afterDash: bool): string
    decreases |s|
  {
    if s == [] then []
    else (if s[0] == '-' && afterDash then [] else [s[0]]) + DropRepeatedDashes(s[1..], s[0] == '-')
  }

  /** After a dash, a text starting with a dash loses that dash and any
      other text is filtered as if it came first. */
  lemma DropAfterDash(t: string)
    requires t != []
    ensures t[0] == '-' ==> [t[0]] + DropRepeatedDashes(t, true) == DropRepeatedDashes(t, false)
    ensures t[0] != '-' ==> DropRepeatedDashes(t, true) == DropRepeatedDashes(t, false)
  {
    assert DropRepeatedDashes(t, true) == (if t[0] == '-' then [] else [t[0]]) + DropRepeatedDashes(t[1..], t[0] == '-');
    assert DropRepeatedDashes(t, false) == [t[0]] + DropRepeatedDashes(t[1..], t[0] == '-');
  }

  /** `Collapse` is that filter: each run of dashes becomes one dash and
      every other character stays where it was. */
  lemma {:induction false} CollapseIsFilter(s: string)
    ensures Collapse(s) == DropRepeatedDashes(s, false)
    decreases |s|
  {
    if |s| == 1 {
      assert DropRepeatedDashes(s, false) == [s[0]] + DropRepeatedDashes(s[1..], s[0] == '-');
      assert s == [s[0]];
    } else if |s| >= 2 {
      var t := s[1..];
      CollapseIsFilter(t);
      assert DropRepeatedDashes(s, false) == [s[0]] + DropRepeatedDashes(t, s[0] == '-');
      if s[0] == '-' {
        DropAfterDash(t);
      }
    }
  }

  /** `.replace(/^-|-$/g, '')`: drop one leading and one trailing dash. */
  function StripEdges(s: string): (r: string)
    ensures |r| <= |s|
    ensures forall c :: c in r ==> c in s
  {
    var a := if |s| > 0 && s[0] == '-' then s[1..] else s;
    if |a| > 0 && a[|a| - 1] == '-' then a[..|a| - 1] else a
  }

  /** `pat` occurs in `s` at index `j`. */
  predicate OccursAt(s: string, pat: string, j: nat)
  {
    j + |pat| <= |s| && s[j..j + |pat|] == pat
  }

  /** First index at or after `from` where `pat` occurs in `s`, or -1. */
  function IndexOf(s: string, pat: string, from: nat): (r: int)
    requires |pat| > 0
    ensures r == -1 || (from <= r && OccursAt(s, pat, r))
    ensures forall j: nat :: from <= j && (r == -1 || j < r) ==> !OccursAt(s, pat, j)
    decreases |s| - from
  {
    if from + |pat| > |s| then -1
    else if OccursAt(s, pat, from) then from
    else IndexOf(s, pat, from + 1)
  }

  /** `s.replace(pat, rep)` with a string pattern: only the first occurrence
      is rewritten. */
  function ReplaceFirst(s: string, pat: string, rep: string): string
    requires |pat| > 0
  {
    var i := IndexOf(s, pat, 0);
    if i < 0 then s else s[..i] + rep + s[i + |pat|..]
  }

  const Extension := ".png"

  /** The part after the sanitised host and path:
      `-${mode.name}-${Date.now()}.png`. */
  function Tail(mode: Mode, timestamp: nat): string
  {
    "-" + mode.Name() + "-" + Decimal(timestamp) + Extension
  }

  /** `rawFilename` of server.js. */
  function Name(hostname: string, pathname: string, mode: Mode, timestamp: nat): string
  {
    var raw := SanitizePart(hostname) + SanitizePart(pathname) + Tail(mode, timestamp);
    ReplaceFirst(StripEdges(Collapse(raw)), "-" + Extension, Extension)
  }

  /** `path.join(downloadsFolder, rawFilename)` */
  function FilePath(downloads: string, name: string): string
  {
    downloads + "/" + name
  }

  // ---------------------------------------------------------------------
  // What the file name is guaranteed to look like.

  lemma AllGoodAppend(a: string, b: string)
    requires AllGood(a) && AllGood(b)
    ensures AllGood(a + b)
  {
    assert forall i :: |a| <= i < |a + b| ==> (a + b)[i] == b[i - |a|];
  }

  lemma AllGoodByChars(s: string, t: string)
    requires AllGood(t) && forall c :: c in s ==> c in t
    ensures AllGood(s)
  {
    forall i | 0 <= i < |s| ensures IsGood(s[i]) {
      assert s[i] in t;
    }
  }

  lemma TailFacts(mode: Mode, timestamp: nat)
    ensures AllGood(Tail(mode, timestamp)) && NoDoubleDash(Tail(mode, timestamp))
    ensures Tail(mode, timestamp)[0] == '-'
  {
    var n := mode.Name();
    var d := Decimal(timestamp);
    var t := "-" + n + "-" + d + Extension;
    forall i | 0 <= i < |t| ensures IsGood(t[i]) && (i + 1 < |t| ==> !(t[i] == '-' && t[i + 1] == '-')) {
      if i == 0 {
      } else if i < 1 + |n| {
        assert t[i] == n[i - 1];
      } else if i == 1 + |n| {
        assert t[i + 1] == d[0];
      } else if i < 2 + |n| + |d| {
        assert t[i] == d[i - 2 - |n|];
      } else {
        assert t[i] == Extension[i - 2 - |n| - |d|];
      }
    }
  }

  lemma ReplaceFirstKeeps(s: string)
    requires AllGood(s) && NoDoubleDash(s) && (s == [] || s[0] != '-')
    ensures var r := ReplaceFirst(s, "-" + Extension, Extension);
      AllGood(r) && NoDoubleDash(r) && (r == [] || r[0] != '-')
  {
    var i := IndexOf(s, "-" + Extension, 0);
    if i >= 0 {
      var a, b := s[..i], s[i + 5..];
      var r := a + Extension + b;
      assert forall j :: 0 <= j < |a| ==> r[j] == s[j];
      assert forall j :: |a| + 4 <= j < |r| ==> r[j] == s[j + 1];
      assert r[|a|] == '.' && r[|a| + 3] == 'g';
      forall j | 0 <= j < |r| ensures IsGood(r[j]) {
        if j < |a| || j >= |a| + 4 { } else {
          assert r[j] == Extension[j - |a|];
        }
      }
      forall j | 0 <= j < |r| - 1 ensures !(r[j] == '-' && r[j + 1] == '-') {
        if j + 1 < |a| {
        } else if j >= |a| + 4 {
        } else if j < |a| {
          assert j + 1 == |a|;
        } else {
          assert r[j] == Extension[j - |a|];
        }
      }
    }
  }

  /** The file name holds none of the characters the sanitiser rejects and
      no upper-case ASCII letter, has no run of dashes and does not start
      with a dash. */
  lemma NameIsSafe(hostname: string, pathname: string, mode: Mode, timestamp: nat)
    ensures var r := Name(hostname, pathname, mode, timestamp);
      AllGood(r) && NoDoubleDash(r) && |r| > 0 && r[0] != '-'
  {
    var raw := SanitizePart(hostname) + SanitizePart(pathname) + Tail(mode, timestamp);
    TailFacts(mode, timestamp);
    AllGoodAppend(SanitizePart(hostname), SanitizePart(pathname));
    AllGoodAppend(SanitizePart(hostname) + SanitizePart(pathname), Tail(mode, timestamp));
    var c := Collapse(raw);
    AllGoodByChars(c, raw);
    var s := StripEdges(c);
    AllGoodByChars(s, c);
    StripEdgesKeeps(c);
    ReplaceFirstKeeps(s);
    NameEndsWithTail(hostname, pathname, mode, timestamp);
  }

  lemma StripEdgesKeeps(c: string)
    requires NoDoubleDash(c)
    ensures var s := StripEdges(c); NoDoubleDash(s) && (s == [] || s[0] != '-')
  {
    var a := if |c| > 0 && c[0] == '-' then c[1..] else c;
    var k := |c| - |a|;
    assert forall j :: 0 <= j < |a| ==> a[j] == c[j + k];
    var s := StripEdges(c);
    assert forall j :: 0 <= j < |s| ==> s[j] == a[j];
    if |s| > 0 && k == 1 {
      assert s[0] == c[1];
    }
  }

  /** Collapsing never disturbs a dash-free suffix that begins with a dash. */
  lemma {:induction false} CollapseKeepsSuffix(p: string, t: string)
    requires |t| > 0 && t[0] == '-' && NoDoubleDash(t)
    ensures EndsWith(Collapse(p + t), t)
    decreases |p|
  {
    if p == [] {
      assert p + t == t;
      CollapseFixesDashFree(t);
    } else {
      var s := p + t;
      assert s[1..] == p[1..] + t;
      CollapseKeepsSuffix(p[1..], t);
      var r := Collapse(s[1..]);
      if !(s[0] == '-' && s[1] == '-') {
        assert ([s[0]] + r)[|[s[0]] + r| - |t|..] == r[|r| - |t|..];
      }
    }
  }

  /** Where `-.png` can occur in `x + tail` with `tail` =
      `${mode.name}-${digits}.png`: only inside `x`. */
  lemma PatternOnlyBeforeTail(x: string, mode: Mode, timestamp: nat, j: nat)
    requires OccursAt(x + mode.Name() + "-" + Decimal(timestamp) + Extension, "-" + Extension, j)
    ensures j + 5 <= |x|
  {
    var n, d := mode.Name(), Decimal(timestamp);
    var s := x + n + "-" + d + Extension;
    assert s[j] == '-' && s[j + 1] == '.' && s[j + 2] == 'p' && s[j + 3] == 'n' && s[j + 4] == 'g' by {
      assert s[j..j + 5][0] == s[j] && s[j..j + 5][1] == s[j + 1] && s[j..j + 5][2] == s[j + 2];
      assert s[j..j + 5][3] == s[j + 3] && s[j..j + 5][4] == s[j + 4];
    }
  }

  lemma StripKeepsSuffix(c: string, t1: string)
    requires EndsWith(c, "-" + t1) && |t1| > 0 && t1[|t1| - 1] != '-'
    ensures EndsWith(StripEdges(c), t1)
  {
    var a := if c[0] == '-' then c[1..] else c;
    assert a[|a| - |t1|..] == c[|c| - |t1|..];
    assert c[|c| - |t1|..] == ("-" + t1)[1..] == t1;
    assert a[|a| - 1] == t1[|t1| - 1];
  }

  lemma ReplaceKeepsSuffix(x: string, mode: Mode, timestamp: nat)
    ensures var t1 := mode.Name() + "-" + Decimal(timestamp) + Extension;
      EndsWith(ReplaceFirst(x + t1, "-" + Extension, Extension), t1)
  {
    var t1 := mode.Name() + "-" + Decimal(timestamp) + Extension;
    var s := x + t1;
    var i := IndexOf(s, "-" + Extension, 0);
    if i >= 0 {
      assert s == x + mode.Name() + "-" + Decimal(timestamp) + Extension;
      PatternOnlyBeforeTail(x, mode, timestamp, i);
      assert s[i + 5..] == x[i + 5..] + t1;
      assert ReplaceFirst(s, "-" + Extension, Extension) == (s[..i] + Extension + x[i + 5..]) + t1;
    }
  }

  lemma {:induction false} WithoutDashesAppend(a: string, b: string)
    ensures WithoutDashes(a + b) == WithoutDashes(a) + WithoutDashes(b)
    decreases |a|
  {
    if a == [] {
      assert a + b == b;
    } else {
      assert (a + b)[1..] == a[1..] + b;
      WithoutDashesAppend(a[1..], b);
    }
  }

  lemma {:induction false} WithoutDashesKeeps(s: string)
    requires forall i :: 0 <= i < |s| ==> s[i] != '-'
    ensures WithoutDashes(s) == s
    decreases |s|
  {
    if s != [] {
      WithoutDashesKeeps(s[1..]);
      assert s == [s[0]] + s[1..];
    }
  }

  /** A dash before a text adds nothing once dashes are dropped. */
  lemma {:induction false} WithoutDashesDash(x: string, y: string)
    ensures WithoutDashes(x + "-" + y) == WithoutDashes(x) + WithoutDashes(y)
  {
    WithoutDashesAppend(x + "-", y);
    WithoutDashesAppend(x, "-");
    assert WithoutDashes("-") == [];
  }

  lemma {:induction false} DashCut(a: string, e: string, b: string)
    ensures WithoutDashes(a + ("-" + e) + b) == WithoutDashes(a + e + b)
  {
    assert a + ("-" + e) + b == a + "-" + (e + b);
    WithoutDashesDash(a, e + b);
    WithoutDashesAppend(a, e + b);
    assert a + e + b == a + (e + b);
  }

  /** Rewriting `-.png` to `.png` removes one dash and nothing else. */
  lemma {:induction false} ReplaceFirstDashes(s: string)
    ensures WithoutDashes(ReplaceFirst(s, "-" + Extension, Extension)) == WithoutDashes(s)
  {
    var pat := "-" + Extension;
    var i := IndexOf(s, pat, 0);
    if i >= 0 {
      var a, b := s[..i], s[i + |pat|..];
      assert s == a + pat + b by {
        assert s[i..i + |pat|] == pat;
        assert s == s[..i] + s[i..i + |pat|] + s[i + |pat|..];
      }
      DashCut(a, Extension, b);
    }
  }

  /** `StripEdges` takes off one leading dash, then one trailing dash, and
      leaves the text between them as it was. */
  lemma {:induction false} StripEdgesRebuilds(s: string)
    ensures var lead := |s| > 0 && s[0] == '-';
      var trail := |s| > (if lead then 1 else 0) && s[|s| - 1] == '-';
      s == (if lead then "-" else "") + StripEdges(s) + (if trail then "-" else "")
  {
    var a := if |s| > 0 && s[0] == '-' then s[1..] else s;
    if |s| > 0 && s[0] == '-' {
      assert s == "-" + a;
    }
    if |a| > 0 && a[|a| - 1] == '-' {
      assert a == a[..|a| - 1] + "-";
    }
  }

  /** Stripping the edges removes at most two dashes and nothing else. */
  lemma {:induction false} StripEdgesDashes(c: string)
    ensures WithoutDashes(StripEdges(c)) == WithoutDashes(c)
  {
    var r := StripEdges(c);
    var lead := if |c| > 0 && c[0] == '-' then "-" else "";
    var trail := if |c| > |lead| && c[|c| - 1] == '-' then "-" else "";
    StripEdgesRebuilds(c);
    assert c == lead + r + trail;
    WithoutDashesAppend(lead + r, trail);
    WithoutDashesAppend(lead, r);
    assert WithoutDashes(lead) == [] && WithoutDashes(trail) == [];
  }

  lemma {:induction false} DashFreeParts(mode: Mode, timestamp: nat)
    ensures WithoutDashes(mode.Name()) == mode.Name()
    ensures WithoutDashes(Decimal(timestamp)) == Decimal(timestamp)
    ensures WithoutDashes(Extension) == Extension
    ensures WithoutDashes("-") == []
  {
    WithoutDashesKeeps(mode.Name());
    WithoutDashesKeeps(Decimal(timestamp));
    WithoutDashesKeeps(Extension);
  }

  lemma {:induction false} TailTextOf(n: string, d: string, e: string)
    requires WithoutDashes(n) == n && WithoutDashes(d) == d && WithoutDashes(e) == e
    ensures WithoutDashes("-" + n + "-" + d + e) == n + d + e
  {
    var x := "-" + n;
    assert WithoutDashes(x + "-" + d + e) == WithoutDashes(x + "-" + d) + e by {
      WithoutDashesAppend(x + "-" + d, e);
    }
    assert WithoutDashes(x + "-" + d) == WithoutDashes(x) + d by {
      WithoutDashesDash(x, d);
    }
    assert WithoutDashes(x) == n by {
      WithoutDashesDash([], n);
      assert [] + "-" + n == x;
    }
  }

  /** Without its dashes the tail is the mode name, the timestamp and the
      extension. */
  lemma {:induction false} TailText(mode: Mode, timestamp: nat)
    ensures WithoutDashes(Tail(mode, timestamp)) == mode.Name() + Decimal(timestamp) + Extension
  {
    DashFreeParts(mode, timestamp);
    TailTextOf(mode.Name(), Decimal(timestamp), Extension);
  }

  /** The file name keeps every character of the sanitised host and path,
      of the mode name, of the timestamp and of the extension, in that
      order: only dashes are added or removed. */
  lemma {:induction false} NameKeepsText(hostname: string, pathname: string, mode: Mode, timestamp: nat)
    ensures WithoutDashes(Name(hostname, pathname, mode, timestamp)) ==
      WithoutDashes(SanitizePart(hostname) + SanitizePart(pathname) + mode.Name() + Decimal(timestamp) + Extension)
  {
    var p := SanitizePart(hostname) + SanitizePart(pathname);
    var n, d, t := mode.Name(), Decimal(timestamp), Tail(mode, timestamp);
    var c := Collapse(p + t);
    calc {
      WithoutDashes(Name(hostname, pathname, mode, timestamp));
      { ReplaceFirstDashes(StripEdges(c)); }
      WithoutDashes(StripEdges(c));
      { StripEdgesDashes(c); }
      WithoutDashes(c);
      { CollapseRemovesOnlyDashes(p + t); }
      WithoutDashes(p + t);
      { WithoutDashesAppend(p, t); TailText(mode, timestamp); }
      WithoutDashes(p) + (n + d + Extension);
      WithoutDashes(p) + n + d + Extension;
      { DashFreeParts(mode, timestamp); PrefixText(p, n, d, Extension); }
      WithoutDashes(p + n + d + Extension);
    }
  }

  lemma {:induction false} PrefixText(p: string, n: string, d: string, e: string)
    requires WithoutDashes(n) == n && WithoutDashes(d) == d && WithoutDashes(e) == e
    ensures WithoutDashes(p + n + d + e) == WithoutDashes(p) + n + d + e
  {
    assert WithoutDashes(p + n + d + e) == WithoutDashes(p + n + d) + e by {
      WithoutDashesAppend(p + n + d, e);
    }
    assert WithoutDashes(p + n + d) == WithoutDashes(p + n) + d by {
      WithoutDashesAppend(p + n, d);
    }
    assert WithoutDashes(p + n) == WithoutDashes(p) + n by {
      WithoutDashesAppend(p, n);
    }
  }

  /** The file name always ends with `${mode.name}-${Date.now()}.png`
      (and with the dash before the mode whenever the sanitised host and
      path leave anything but dashes). */
  lemma NameEndsWithTail(hostname: string, pathname: string, mode: Mode, timestamp: nat)
    ensures EndsWith(Name(hostname, pathname, mode, timestamp), mode.Name() + "-" + Decimal(timestamp) + Extension)
  {
    var t := Tail(mode, timestamp);
    var t1 := mode.Name() + "-" + Decimal(timestamp) + Extension;
    assert t == "-" + t1;
    TailFacts(mode, timestamp);
    var p := SanitizePart(hostname) + SanitizePart(pathname);
    CollapseKeepsSuffix(p, t);
    var c := Collapse(p + t);
    StripKeepsSuffix(c, t1);
    var s := StripEdges(c);
    var x := s[..|s| - |t1|];
    assert s == x + t1;
    ReplaceKeepsSuffix(x, mode, timestamp);
  }
}
