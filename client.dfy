/** The browser script (`public/script.js`): the set of urls the user has
    entered, the run button, the progress counters and status list driven
    by the stream's messages, and the loop that reassembles the stream's
    lines from the chunks the response arrives in. */
module Client {
  import opened Wrappers
  import opened TextUtil
  import opened Protocol
  import opened Ndjson
  import Capture

  // ---------------------------------------------------------------------
  // Urls

  const Http := "http://"
  const Https := "https://"

  /** The url starts with `http://` or `https://`. */
  predicate HasScheme(s: string)
  {
    StartsWith(s, Http) || StartsWith(s, Https)
  }

  /** The url `addUrl` keeps for a trimmed entry: `https://` is put in
      front of an entry that starts with neither scheme. */
  function WithScheme(t: string): (r: string)
    ensures HasScheme(r)
    ensures HasScheme(t) ==> r == t
    ensures !HasScheme(t) ==> r == Https + t
  {
    if HasScheme(t) then t else
      assert (Https + t)[..|Https|] == Https;
      Https + t
  }

  /** `url.replace(/^https?:\/\//, '')`: the url without its scheme, as
      the status list shows it. */
  function StripScheme(u: string): (r: string)
    ensures EndsWith(u, r)
    ensures HasScheme(u) ==> u == Https + r || u == Http + r
    ensures !HasScheme(u) ==> r == u
  {
    if StartsWith(u, Https) then u[|Https|..]
    else if StartsWith(u, Http) then u[|Http|..]
    else u
  }

  /** The text of a url chip: also without one trailing `/`. */
  function DisplayUrl(u: string): (r: string)
    ensures EndsWith(StripScheme(u), "/") ==> r + "/" == StripScheme(u)
    ensures !EndsWith(StripScheme(u), "/") ==> r == StripScheme(u)
  {
    var s := StripScheme(u);
    if EndsWith(s, "/") then
      assert s[..|s| - 1] + "/" == s;
      s[..|s| - 1]
    else s
  }

  /** Putting the scheme in front and taking it off again shows what was
      typed, less the scheme the user typed, if any. */
  lemma StripWithScheme(t: string)
    ensures StripScheme(WithScheme(t)) == StripScheme(t)
    ensures !HasScheme(t) ==> StripScheme(WithScheme(t)) == t
  {
    if !HasScheme(t) {
      assert (Https + t)[..|Https|] == Https;
      assert (Https + t)[|Https|..] == t;
    }
  }

  /** A url that already has a scheme is kept as it is. */
  lemma WithSchemeIdempotent(t: string)
    ensures WithScheme(WithScheme(t)) == WithScheme(t)
  {
  }

  /** What `addUrl(s)` keeps, if anything: nothing for a blank entry or
      for one the URL parser refuses once the scheme is in place. `valid`
      stands for `isValidUrl`, whose parser is not part of this model. */
  function Admit(s: string, valid: string -> bool): (r: Option<string>)
  {
    AdmitTrimmed(Trim(s), valid)
  }

  /** The part of `addUrl` after `trim()`. */
  function AdmitTrimmed(t: string, valid: string -> bool): Option<string>
  {
    if t == [] then None
    else if !valid(WithScheme(t)) then None
    else Some(WithScheme(t))
  }

  /** A kept url has a scheme, passed the parser, has no white space at
      either end and is the trimmed entry with at most a scheme added;
      nothing is kept exactly when the entry is blank or refused. */
  lemma AdmitSpec(s: string, valid: string -> bool)
    ensures var r := Admit(s, valid);
      (r.None? <==> IsBlank(s) || !valid(WithScheme(Trim(s)))) &&
      (r.Some? ==>
        r.value == WithScheme(Trim(s)) && HasScheme(r.value) && valid(r.value) && Trim(r.value) == r.value)
  {
    TrimEmptyIffBlank(s);
    var t := Trim(s);
    if t != [] {
      TrimIdempotent(s);
      SchemedTrimmed(t);
    }
  }

  /** `https://` followed by a trimmed text is trimmed. */
  lemma SchemedTrimmed(t: string)
    requires t != [] && Trim(t) == t
    ensures Trim(WithScheme(t)) == WithScheme(t)
  {
    var u := WithScheme(t);
    assert !IsJsSpace(t[|t| - 1]) by {
      assert t == TrimEnd(TrimStart(t));
    }
    if !HasScheme(t) {
      assert u[0] == 'h' && u[|u| - 1] == t[|t| - 1];
    } else {
      assert !IsJsSpace(u[0]) by {
        assert u[..|Http|] == Http || u[..|Https|] == Https;
      }
    }
    assert TrimStart(u) == u;
    assert TrimEnd(u) == u;
  }

  /** A trimmed url with a scheme that the parser accepts is kept as it
      is. */
  lemma AdmitKept(u: string, valid: string -> bool)
    requires Trim(u) == u && HasScheme(u) && valid(u)
    ensures Admit(u, valid) == Some(u)
  {
    SchemedKept(u, valid);
  }

  lemma SchemedKept(u: string, valid: string -> bool)
    requires HasScheme(u) && valid(u)
    ensures AdmitTrimmed(u, valid) == Some(u)
  {
    assert u != [] by {
      assert |Http| <= |u|;
    }
  }

  /** Entering a url that is already kept keeps it unchanged. */
  lemma AdmitIdempotent(s: string, valid: string -> bool)
    requires Admit(s, valid).Some?
    ensures Admit(Admit(s, valid).value, valid) == Admit(s, valid)
  {
    AdmitSpec(s, valid);
    AdmitKept(Admit(s, valid).value, valid);
  }

  /** The urls in entry order, each once: what the `urls` Set holds. */
  predicate Distinct(urls: seq<string>)
  {
    forall i, j :: 0 <= i < j < |urls| ==> urls[i] != urls[j]
  }

  /** The url list after `addUrl` on an entry that keeps `x`: a url not
      yet in the list is appended. */
  function Keep(urls: seq<string>, x: Option<string>): seq<string>
  {
    if x.Some? && x.value !in urls then urls + [x.value] else urls
  }

  /** The url list after `addUrl` on entries that keep `xs`, in order. */
  function KeepAll(urls: seq<string>, xs: seq<Option<string>>): seq<string>
    decreases |xs|
  {
    if xs == [] then urls else Keep(KeepAll(urls, xs[..|xs| - 1]), xs[|xs| - 1])
  }

  /** What each entry keeps. */
  function Admitted(pieces: seq<string>, valid: string -> bool): (r: seq<Option<string>>)
    ensures |r| == |pieces|
  {
    seq(|pieces|, i requires 0 <= i < |pieces| => Admit(pieces[i], valid))
  }

  lemma KeepAllStep(urls: seq<string>, xs: seq<Option<string>>, i: nat)
    requires i < |xs|
    ensures KeepAll(urls, xs[..i + 1]) == Keep(KeepAll(urls, xs[..i]), xs[i])
  {
    assert xs[..i + 1][..i] == xs[..i];
  }

  /** `u` is kept from one of the entries. */
  predicate Entered(u: string, xs: seq<Option<string>>)
  {
    exists i :: 0 <= i < |xs| && xs[i] == Some(u)
  }

  /** Adding entries keeps the earlier urls first and in order, adds no
      url twice, and the urls afterwards are exactly the earlier ones and
      those kept from the entries. */
  lemma {:induction false} KeepAllSpec(urls: seq<string>, xs: seq<Option<string>>)
    requires Distinct(urls)
    ensures var r := KeepAll(urls, xs);
      Distinct(r) && |urls| <= |r| && r[..|urls|] == urls &&
      forall u :: u in r <==> u in urls || Entered(u, xs)
    decreases |xs|
  {
    if xs != [] {
      var init, last := xs[..|xs| - 1], xs[|xs| - 1];
      KeepAllSpec(urls, init);
      var r0 := KeepAll(urls, init);
      var r := KeepAll(urls, xs);
      assert r == Keep(r0, last);
      assert forall i :: 0 <= i < |init| ==> init[i] == xs[i];
      forall u
        ensures u in r <==> u in urls || Entered(u, xs)
      {
        if Entered(u, init) {
          var i :| 0 <= i < |init| && init[i] == Some(u);
          assert xs[i] == init[i];
        }
      }
      if r != r0 {
        assert r[..|urls|] == r0[..|urls|];
      }
    }
  }

  /** Entries whose urls are all in the list already change nothing. */
  lemma {:induction false} AlreadyKept(urls: seq<string>, xs: seq<Option<string>>)
    requires forall i :: 0 <= i < |xs| && xs[i].Some? ==> xs[i].value in urls
    ensures KeepAll(urls, xs) == urls
    decreases |xs|
  {
    if xs != [] {
      var init := xs[..|xs| - 1];
      assert forall i :: 0 <= i < |init| ==> init[i] == xs[i];
      AlreadyKept(urls, init);
    }
  }

  /** Entering the same text twice adds nothing the second time. */
  lemma KeepAllIdempotent(urls: seq<string>, xs: seq<Option<string>>)
    requires Distinct(urls)
    ensures KeepAll(KeepAll(urls, xs), xs) == KeepAll(urls, xs)
  {
    KeepAllSpec(urls, xs);
    var r := KeepAll(urls, xs);
    forall i | 0 <= i < |xs| && xs[i].Some? ensures xs[i].value in r {
      assert Entered(xs[i].value, xs);
    }
    AlreadyKept(r, xs);
  }

  /** The url list without `u`: `urls.delete(url)`. */
  function Without(urls: seq<string>, u: string): (r: seq<string>)
    ensures u !in r
    ensures forall x :: x in r <==> x in urls && x != u
    decreases |urls|
  {
    if urls == [] then []
    else (if urls[0] == u then [] else [urls[0]]) + Without(urls[1..], u)
  }

  /** Removing a url that sits at index `k` of a list without repeats
      leaves the urls before it and after it, in their order. */
  lemma {:induction false} WithoutAt(urls: seq<string>, u: string, k: nat)
    requires Distinct(urls) && k < |urls| && urls[k] == u
    ensures Without(urls, u) == urls[..k] + urls[k + 1..]
    decreases |urls|
  {
    var rest := urls[1..];
    assert urls == [urls[0]] + rest;
    assert Distinct(rest) by {
      assert forall i, j :: 0 <= i < j < |rest| ==> rest[i] == urls[i + 1] && rest[j] == urls[j + 1];
    }
    if k == 0 {
      assert u !in rest by {
        assert forall i :: 0 <= i < |rest| ==> rest[i] == urls[i + 1];
      }
      WithoutDistinct(rest, u);
    } else {
      assert urls[0] != u;
      WithoutAt(rest, u, k - 1);
      assert urls[..k] == [urls[0]] + rest[..k - 1];
      assert urls[k + 1..] == rest[k..];
    }
  }

  lemma {:induction false} WithoutDistinct(urls: seq<string>, u: string)
    requires Distinct(urls)
    ensures Distinct(Without(urls, u))
    ensures (forall i :: 0 <= i < |urls| ==> HasScheme(urls[i])) ==>
      forall i :: 0 <= i < |Without(urls, u)| ==> HasScheme(Without(urls, u)[i])
    ensures u in urls ==> |Without(urls, u)| == |urls| - 1
    ensures u !in urls ==> Without(urls, u) == urls
    decreases |urls|
  {
    if urls != [] {
      var rest := urls[1..];
      WithoutDistinct(rest, u);
      assert urls == [urls[0]] + rest;
      assert urls[0] !in rest;
      if u == urls[0] {
        assert u !in rest;
      }
    }
  }

  // ---------------------------------------------------------------------
  // Splitting pasted text

  /** A character of the class `[\n, ]`. */
  predicate IsSep(c: char)
  {
    c == '\n' || c == ',' || c == ' '
  }

  /** `str.split(/[\n, ]+/)`: the pieces between runs of separators; a
      separator at either end gives an empty first or last piece. */
  function SplitSep(s: string): (r: seq<string>)
    ensures |r| > 0
    decreases |s|
  {
    if s == [] then [[]] else PushSep(SplitSep(s[..|s| - 1]), s[..|s| - 1], s[|s| - 1])
  }

  /** The pieces after one more character `c` following `prev`: a
      separator ends the last piece unless it continues a run. */
  function PushSep(r: seq<string>, prev: string, c: char): (r': seq<string>)
    requires |r| > 0
    ensures |r'| > 0
  {
    if IsSep(c) then (if prev != [] && IsSep(prev[|prev| - 1]) then r else r + [[]])
    else r[..|r| - 1] + [r[|r| - 1] + [c]]
  }

  /** `s` without its separators. */
  function Unseparated(s: string): (r: string)
    ensures |r| <= |s|
    decreases |s|
  {
    if s == [] then [] else Unseparated(s[..|s| - 1]) + (if IsSep(s[|s| - 1]) then [] else [s[|s| - 1]])
  }

  /** No piece holds a separator. */
  predicate Clean(r: seq<string>)
  {
    forall i, j :: 0 <= i < |r| && 0 <= j < |r[i]| ==> !IsSep(r[i][j])
  }

  lemma PushSepClean(r: seq<string>, prev: string, c: char)
    requires |r| > 0 && Clean(r)
    ensures Clean(PushSep(r, prev, c))
  {
    if !IsSep(c) {
      var r' := PushSep(r, prev, c);
      var l := r[|r| - 1];
      forall i, j | 0 <= i < |r'| && 0 <= j < |r'[i]| ensures !IsSep(r'[i][j]) {
        if i < |r| - 1 {
          assert r'[i] == r[i];
        } else if j < |l| {
          assert r'[i][j] == l[j];
        }
      }
    }
  }

  /** No piece of the split holds a separator. */
  lemma {:induction false} SplitSepClean(s: string)
    ensures Clean(SplitSep(s))
    decreases |s|
  {
    if s != [] {
      SplitSepClean(s[..|s| - 1]);
      PushSepClean(SplitSep(s[..|s| - 1]), s[..|s| - 1], s[|s| - 1]);
    }
  }

  /** Every piece between the first and the last is non-empty, and the
      last is empty exactly when the text so far is empty or ends with a
      separator. */
  predicate Shaped(r: seq<string>, s: string)
    requires |r| > 0
  {
    (forall i :: 0 < i < |r| - 1 ==> r[i] != []) &&
    (r[|r| - 1] == [] <==> s == [] || IsSep(s[|s| - 1])) &&
    (s == [] ==> |r| == 1)
  }

  lemma PushSepShaped(r: seq<string>, prev: string, c: char)
    requires |r| > 0 && Shaped(r, prev)
    ensures Shaped(PushSep(r, prev, c), prev + [c])
  {
    var r' := PushSep(r, prev, c);
    if !IsSep(c) {
      assert forall i :: 0 < i < |r'| - 1 ==> r'[i] == r[i];
    }
  }

  /** Runs of separators count as one: no empty piece but at either
      end. */
  lemma {:induction false} SplitSepShaped(s: string)
    ensures Shaped(SplitSep(s), s)
    decreases |s|
  {
    if s != [] {
      var prev := s[..|s| - 1];
      SplitSepShaped(prev);
      PushSepShaped(SplitSep(prev), prev, s[|s| - 1]);
      assert prev + [s[|s| - 1]] == s;
    }
  }

  lemma ConcatExtend(r: seq<string>, c: char)
    requires |r| > 0
    ensures Concat(r[..|r| - 1] + [r[|r| - 1] + [c]]) == Concat(r) + [c]
  {
    var l, i0 := r[|r| - 1], r[..|r| - 1];
    ConcatAppend(i0, l + [c]);
    assert Concat(r) == Concat(i0) + l;
  }

  lemma PushSepConcat(r: seq<string>, prev: string, c: char)
    requires |r| > 0
    ensures Concat(PushSep(r, prev, c)) == Concat(r) + (if IsSep(c) then [] else [c])
  {
    if !IsSep(c) {
      ConcatExtend(r, c);
    } else if !(prev != [] && IsSep(prev[|prev| - 1])) {
      ConcatAppend(r, []);
    }
  }

  /** Together the pieces hold the text's other characters, in order. */
  lemma {:induction false} SplitSepConcat(s: string)
    ensures Concat(SplitSep(s)) == Unseparated(s)
    decreases |s|
  {
    if s != [] {
      SplitSepConcat(s[..|s| - 1]);
      PushSepConcat(SplitSep(s[..|s| - 1]), s[..|s| - 1], s[|s| - 1]);
    }
  }

  /** A non-empty run of separators. */
  predicate SepRun(x: string)
  {
    x != [] && forall i :: 0 <= i < |x| ==> IsSep(x[i])
  }

  /** The maximal runs of separators of `s`, in order. */
  function SepRuns(s: string): seq<string>
    decreases |s|
  {
    if s == [] then [] else PushRun(SepRuns(s[..|s| - 1]), s[..|s| - 1], s[|s| - 1])
  }

  /** The runs after one more character `c` following `prev`: a separator
      continues the last run or starts a new one. */
  function PushRun(runs: seq<string>, prev: string, c: char): seq<string>
  {
    if !IsSep(c) then runs
    else if prev != [] && IsSep(prev[|prev| - 1]) && runs != [] then runs[..|runs| - 1] + [runs[|runs| - 1] + [c]]
    else runs + [[c]]
  }

  /** The pieces with the separator runs put back between them:
      `r[0] + seps[0] + r[1] + ... + r[|r| - 1]`. */
  function Interleave(r: seq<string>, seps: seq<string>): string
    requires |r| > 0 && |seps| == |r| - 1
    decreases |r|
  {
    if |r| == 1 then r[0] else Interleave(r[..|r| - 1], seps[..|seps| - 1]) + seps[|seps| - 1] + r[|r| - 1]
  }

  /** `s` is the pieces `r` with the non-empty separator runs `runs`
      between them, and a text ending in a separator has at least one run. */
  predicate Rebuilt(s: string, r: seq<string>, runs: seq<string>)
  {
    |r| > 0 && |runs| == |r| - 1 &&
    (forall k :: 0 <= k < |runs| ==> SepRun(runs[k])) &&
    Interleave(r, runs) == s &&
    (s != [] && IsSep(s[|s| - 1]) ==> runs != [])
  }

  lemma {:induction false} InterleaveExtend(r: seq<string>, seps: seq<string>, c: char)
    requires |r| > 0 && |seps| == |r| - 1
    ensures Interleave(r[..|r| - 1] + [r[|r| - 1] + [c]], seps) == Interleave(r, seps) + [c]
  {
    var r' := r[..|r| - 1] + [r[|r| - 1] + [c]];
    if |r| > 1 {
      assert r'[..|r'| - 1] == r[..|r| - 1];
    }
  }

  lemma {:induction false} InterleaveRun(r: seq<string>, seps: seq<string>, c: char)
    requires |r| > 1 && |seps| == |r| - 1 && r[|r| - 1] == []
    ensures Interleave(r, seps[..|seps| - 1] + [seps[|seps| - 1] + [c]]) == Interleave(r, seps) + [c]
  {
    var seps' := seps[..|seps| - 1] + [seps[|seps| - 1] + [c]];
    assert seps'[..|seps'| - 1] == seps[..|seps| - 1];
  }

  lemma {:induction false} InterleaveNew(r: seq<string>, seps: seq<string>, c: char)
    requires |r| > 0 && |seps| == |r| - 1
    ensures Interleave(r + [[]], seps + [[c]]) == Interleave(r, seps) + [c]
  {
    assert (r + [[]])[..|r|] == r;
    assert (seps + [[c]])[..|seps|] == seps;
  }

  lemma {:induction false} RebuildPlain(prev: string, c: char, r: seq<string>, runs: seq<string>)
    requires Rebuilt(prev, r, runs) && !IsSep(c)
    ensures Rebuilt(prev + [c], PushSep(r, prev, c), PushRun(runs, prev, c))
  {
    InterleaveExtend(r, runs, c);
  }

  lemma {:induction false} RebuildRun(prev: string, c: char, r: seq<string>, runs: seq<string>)
    requires Rebuilt(prev, r, runs) && Shaped(r, prev)
    requires IsSep(c) && prev != [] && IsSep(prev[|prev| - 1])
    ensures Rebuilt(prev + [c], PushSep(r, prev, c), PushRun(runs, prev, c))
  {
    InterleaveRun(r, runs, c);
    var last := runs[|runs| - 1];
    assert SepRun(last + [c]) by {
      assert forall i :: 0 <= i < |last| ==> (last + [c])[i] == last[i];
    }
    var runs' := PushRun(runs, prev, c);
    assert forall k :: 0 <= k < |runs| - 1 ==> runs'[k] == runs[k];
  }

  lemma {:induction false} RebuildNew(prev: string, c: char, r: seq<string>, runs: seq<string>)
    requires Rebuilt(prev, r, runs)
    requires IsSep(c) && !(prev != [] && IsSep(prev[|prev| - 1]))
    ensures Rebuilt(prev + [c], PushSep(r, prev, c), PushRun(runs, prev, c))
  {
    var r', runs' := PushSep(r, prev, c), PushRun(runs, prev, c);
    assert r' == r + [[]] && runs' == runs + [[c]];
    assert Interleave(r', runs') == prev + [c] by {
      InterleaveNew(r, runs, c);
    }
    assert forall k :: 0 <= k < |runs'| ==> SepRun(runs'[k]) by {
      assert SepRun([c]);
      assert forall k :: 0 <= k < |runs| ==> runs'[k] == runs[k];
    }
    assert runs' != [];
  }

  /** The split cuts the text exactly at its runs of separators: putting
      each run back between the pieces around it gives the text again. */
  lemma {:induction false} SplitSepRebuilds(s: string)
    ensures Rebuilt(s, SplitSep(s), SepRuns(s))
    decreases |s|
  {
    if s != [] {
      var prev, c := s[..|s| - 1], s[|s| - 1];
      SplitSepRebuilds(prev);
      SplitSepShaped(prev);
      var r, runs := SplitSep(prev), SepRuns(prev);
      assert s == prev + [c];
      if !IsSep(c) {
        RebuildPlain(prev, c, r, runs);
      } else if prev != [] && IsSep(prev[|prev| - 1]) {
        RebuildRun(prev, c, r, runs);
      } else {
        RebuildNew(prev, c, r, runs);
      }
    }
  }

  // ---------------------------------------------------------------------
  // Ids and labels

  /** A character the id pattern keeps: `[a-zA-Z0-9-]`. */
  predicate IsIdChar(c: char)
  {
    IsAsciiUpper(c) || IsAsciiLower(c) || IsDigit(c) || c == '-'
  }

  /** `jobId.replace(/[^a-zA-Z0-9-]/g, '-')` */
  function SafeId(s: string): (r: string)
    ensures |r| == |s|
    ensures forall i :: 0 <= i < |s| ==> IsIdChar(r[i])
    ensures forall i :: 0 <= i < |s| ==> (IsIdChar(s[i]) ==> r[i] == s[i]) && (!IsIdChar(s[i]) ==> r[i] == '-')
  {
    seq(|s|, i requires 0 <= i < |s| => if IsIdChar(s[i]) then s[i] else '-')
  }

  /** The DOM id of a job's status item, `job-${safeId}`: the same text
      when the item is created and when its badge is looked up. */
  function DomId(jobId: string): string
  {
    "job-" + SafeId(jobId)
  }

  /** Making an id safe twice is making it safe once, and a safe id is
      left as it is. */
  lemma SafeIdIdempotent(s: string)
    ensures SafeId(SafeId(s)) == SafeId(s)
    ensures (forall i :: 0 <= i < |s| ==> IsIdChar(s[i])) ==> SafeId(s) == s
  {
  }

  /** Distinct jobs can share a status item: two urls that differ only in
      a character outside `[a-zA-Z0-9-]` get the same DOM id. */
  lemma SafeIdCollides()
    ensures Capture.Job("https://a.com/a_b", Desktop).Id() != Capture.Job("https://a.com/a.b", Desktop).Id()
    ensures DomId(Capture.Job("https://a.com/a_b", Desktop).Id()) == DomId(Capture.Job("https://a.com/a.b", Desktop).Id())
  {
    var a, b := Capture.Job("https://a.com/a_b", Desktop).Id(), Capture.Job("https://a.com/a.b", Desktop).Id();
    assert a[15] != b[15];
    assert SafeId(a) == SafeId(b);
  }

  /** `str.charAt(0).toUpperCase() + str.slice(1)` for ASCII text. */
  function FormatMode(s: string): (r: string)
    ensures |r| == |s|
  {
    if s == [] then [] else [AsciiUpper(s[0])] + s[1..]
  }

  /** The status list's mode labels. */
  lemma FormatModeNames()
    ensures FormatMode(Desktop.Name()) == "Desktop"
    ensures FormatMode(Mobile.Name()) == "Mobile"
  {
  }

  /** Only the first character changes, and to its capital. */
  lemma FormatModeSpec(s: string)
    ensures s == [] || FormatMode(s)[1..] == s[1..]
    ensures s != [] && IsAsciiLower(s[0]) ==> IsAsciiUpper(FormatMode(s)[0]) && FormatMode(s)[1..] == s[1..]
    ensures FormatMode(FormatMode(s)) == FormatMode(s)
  {
  }

  // ---------------------------------------------------------------------
  // Progress and status list

  /** The state of a status item's badge. */
  datatype Badge = Capturing | Paused | Succeeded | Failed

  /** One entry of the status list: the url (its `title`), the url as
      shown, the mode label, the badge and the badge's `title`. */
  datatype StatusItem = StatusItem(url: string, shown: string, mode: string, badge: Badge, detail: Option<string>)

  /** What the progress and status sections show. */
  datatype Board = Board(totalTasks: nat, completedTasks: nat, items: map<string, StatusItem>, finished: bool)

  /** `updateStatusItem`: a message for a job without a status item
      changes nothing. */
  function Mark(b: Board, jobId: string, badge: Badge, detail: string): Board
  {
    var id := DomId(jobId);
    if id !in b.items then b
    else
      var item := b.items[id];
      b.(items := b.items[id := item.(badge := badge, detail := if detail != [] then Some(detail) else item.detail)])
  }

  /** `handleStreamMessage(msg)`. An `error` without a job (no mode
      selected) makes `updateStatusItem` read `undefined.replace`, which
      throws before the counter moves; the loop around the call catches
      it. */
  function Step(b: Board, e: Event): (r: Board)
    ensures r.completedTasks == b.completedTasks + (if e.IsTerminal() then 1 else 0)
    ensures r.totalTasks == if e.Start? then e.total else b.totalTasks
    ensures r.finished == (b.finished || (e.Done? && b.completedTasks == b.totalTasks && b.totalTasks > 0))
    ensures r.items.Keys == b.items.Keys + (if e.Progress? then {DomId(e.jobId)} else {})
    ensures !IsJobEvent(e) ==> r.items == b.items
  {
    match e
    case Start(total) => b.(totalTasks := total)
    case Progress(url, mode, jobId) =>
      var id := DomId(jobId);
      var item := if id in b.items then b.items[id]
        else StatusItem(url, StripScheme(url), FormatMode(mode.Name()), Capturing, None);
      b.(items := b.items[id := item.(badge := Capturing)])
    case Waiting(_, _, jobId) => Mark(b, jobId, Paused, [])
    case Success(_, _, filepath, jobId) => Mark(b, jobId, Succeeded, []).(completedTasks := b.completedTasks + 1)
    case JobError(_, _, error, jobId) => Mark(b, jobId, Failed, error).(completedTasks := b.completedTasks + 1)
    case RequestError(_) => b
    case Fatal(_) => b
    case Done => b.(finished := b.finished || (b.completedTasks == b.totalTasks && b.totalTasks > 0))
  }

  /** A job's later messages reach the status item its `progress`
      created. */
  lemma ProgressThenEnd(b: Board, url: string, mode: Mode, jobId: string, filepath: string, error: string)
    ensures var p, id := Step(b, Progress(url, mode, jobId)), DomId(jobId);
      id in p.items && p.items[id].badge == Capturing &&
      Step(p, Waiting(url, mode, jobId)).items[id].badge == Paused &&
      Step(p, Success(url, mode, filepath, jobId)).items[id].badge == Succeeded &&
      Step(p, JobError(url, mode, error, jobId)).items[id].badge == Failed
  {
  }

  /** The board after handling `events` in order. */
  function Replay(b: Board, events: seq<Event>): Board
    decreases |events|
  {
    if events == [] then b else Step(Replay(b, events[..|events| - 1]), events[|events| - 1])
  }

  lemma {:induction false} ReplayAppend(b: Board, xs: seq<Event>, ys: seq<Event>)
    ensures Replay(b, xs + ys) == Replay(Replay(b, xs), ys)
    decreases |ys|
  {
    if ys == [] {
      assert xs + ys == xs;
    } else {
      assert (xs + ys)[..|xs + ys| - 1] == xs + ys[..|ys| - 1];
      ReplayAppend(b, xs, ys[..|ys| - 1]);
    }
  }

  /** The messages `JSON.parse` makes of the lines, dropping the lines it
      throws on. `decode` stands for `JSON.parse`, which is not part of
      this model. */
  function Messages(lines: seq<string>, decode: string -> Option<Event>): seq<Event>
    decreases |lines|
  {
    if lines == [] then []
    else (match decode(lines[0]) case None => [] case Some(e) => [e]) + Messages(lines[1..], decode)
  }

  lemma {:induction false} MessagesAppend(xs: seq<string>, ys: seq<string>, decode: string -> Option<Event>)
    ensures Messages(xs + ys, decode) == Messages(xs, decode) + Messages(ys, decode)
    decreases |xs|
  {
    if xs == [] {
      assert xs + ys == ys;
    } else {
      assert (xs + ys)[1..] == xs[1..] + ys;
      MessagesAppend(xs[1..], ys, decode);
    }
  }

  /** Lines that each parse to the corresponding message give those
      messages. */
  lemma {:induction false} MessagesOf(lines: seq<string>, events: seq<Event>, decode: string -> Option<Event>)
    requires |lines| == |events| && forall i :: 0 <= i < |lines| ==> decode(lines[i]) == Some(events[i])
    ensures Messages(lines, decode) == events
    decreases |lines|
  {
    if lines != [] {
      MessagesOf(lines[1..], events[1..], decode);
    }
  }

  /** The capture button is disabled: no url, no mode, or a capture
      already running. */
  predicate RunDisabled(urls: seq<string>, desktop: bool, mobile: bool, isProcessing: bool)
  {
    |urls| == 0 || !(desktop || mobile) || isProcessing
  }

  /** The page's script state. The `urls` Set is a sequence without
      repetition, in insertion order, since `Array.from(urls)` sends them
      in that order. */
  class Ui {
    var urls: seq<string>
    var desktop: bool
    var mobile: bool
    var stealth: bool
    var isProcessing: bool
    /** `captureBtn.disabled` */
    var runDisabled: bool
    var totalTasks: nat
    var completedTasks: nat
    /** the status list, by DOM id */
    var items: map<string, StatusItem>
    /** the progress bar has turned to the success colour */
    var finished: bool

    /** Every kept url has a scheme and appears once, and the button's
        state is the one `validateRunButton` computes. */
    ghost predicate Valid()
      reads this
    {
      Distinct(urls) && (forall i :: 0 <= i < |urls| ==> HasScheme(urls[i])) &&
      runDisabled == RunDisabled(urls, desktop, mobile, isProcessing)
    }

    function Shown(): Board
      reads this
    {
      Board(totalTasks, completedTasks, items, finished)
    }

    /** The page once loaded, with the checkboxes as the page marks them
        up, after the initial `validateRunButton()`. */
    constructor (desktop: bool, mobile: bool, stealth: bool)
      ensures Valid()
      ensures urls == [] && runDisabled && !isProcessing
      ensures this.desktop == desktop && this.mobile == mobile && this.stealth == stealth
      ensures Shown() == Board(0, 0, map[], false)
    {
      urls := [];
      this.desktop := desktop;
      this.mobile := mobile;
      this.stealth := stealth;
      isProcessing := false;
      runDisabled := true;
      totalTasks := 0;
      completedTasks := 0;
      items := map[];
      finished := false;
    }

    /** `validateRunButton()` */
    method ValidateRunButton()
      modifies this
      ensures runDisabled == RunDisabled(urls, desktop, mobile, isProcessing)
      ensures urls == old(urls) && desktop == old(desktop) && mobile == old(mobile) && stealth == old(stealth)
      ensures isProcessing == old(isProcessing) && Shown() == old(Shown())
    {
      runDisabled := |urls| == 0 || !(desktop || mobile) || isProcessing;
    }

    /** `addUrl(urlStr)`: a new url is appended (and the chips re-rendered,
        which re-validates the button); a blank, refused or repeated one
        changes nothing. */
    method AddUrl(s: string, valid: string -> bool)
      requires Valid()
      modifies this
      ensures Valid()
      ensures urls == Keep(old(urls), Admit(s, valid))
      ensures desktop == old(desktop) && mobile == old(mobile) && stealth == old(stealth)
      ensures isProcessing == old(isProcessing) && Shown() == old(Shown())
    {
      var trimmed := Trim(s);
      if trimmed == [] {
        return;
      }
      if !StartsWith(trimmed, Http) && !StartsWith(trimmed, Https) {
        trimmed := Https + trimmed;
      }
      if !valid(trimmed) {
        return;
      }
      if trimmed !in urls {
        urls := urls + [trimmed];
        ValidateRunButton();
      }
    }

    /** `processInputString(str)`: `addUrl` on every piece of the split,
        in order. */
    method ProcessInputString(str: string, valid: string -> bool)
      requires Valid()
      modifies this
      ensures Valid()
      ensures urls == KeepAll(old(urls), Admitted(SplitSep(str), valid))
      ensures desktop == old(desktop) && mobile == old(mobile) && stealth == old(stealth)
      ensures isProcessing == old(isProcessing) && Shown() == old(Shown())
    {
      var pieces := SplitSep(str);
      ghost var xs := Admitted(pieces, valid);
      for i := 0 to |pieces|
        invariant Valid()
        invariant urls == KeepAll(old(urls), xs[..i])
        invariant desktop == old(desktop) && mobile == old(mobile) && stealth == old(stealth)
        invariant isProcessing == old(isProcessing) && Shown() == old(Shown())
      {
        KeepAllStep(old(urls), xs, i);
        AddUrl(pieces[i], valid);
      }
      assert xs[..|pieces|] == xs;
    }

    /** A chip's close button: `urls.delete(url)`, then re-render and
        re-validate. */
    method RemoveUrl(u: string)
      requires Valid()
      modifies this
      ensures Valid()
      ensures urls == Without(old(urls), u)
      ensures forall k :: 0 <= k < |old(urls)| && old(urls)[k] == u ==> urls == old(urls)[..k] + old(urls)[k + 1..]
      ensures desktop == old(desktop) && mobile == old(mobile) && stealth == old(stealth)
      ensures runDisabled == RunDisabled(urls, desktop, mobile, isProcessing)
      ensures isProcessing == old(isProcessing) && Shown() == old(Shown())
    {
      WithoutDistinct(urls, u);
      forall k | 0 <= k < |urls| && urls[k] == u ensures Without(urls, u) == urls[..k] + urls[k + 1..] {
        WithoutAt(urls, u, k);
      }
      urls := Without(urls, u);
      ValidateRunButton();
    }

    /** A change of the desktop or mobile checkbox. */
    method SetModes(desktop: bool, mobile: bool)
      requires Valid()
      modifies this
      ensures Valid()
      ensures this.desktop == desktop && this.mobile == mobile
      ensures urls == old(urls) && stealth == old(stealth)
      ensures runDisabled == RunDisabled(urls, desktop, mobile, isProcessing)
      ensures isProcessing == old(isProcessing) && Shown() == old(Shown())
    {
      this.desktop := desktop;
      this.mobile := mobile;
      ValidateRunButton();
    }

    /** A change of the stealth checkbox, which has no listener. */
    method SetStealth(stealth: bool)
      requires Valid()
      modifies this
      ensures Valid()
      ensures this.stealth == stealth
      ensures urls == old(urls) && desktop == old(desktop) && mobile == old(mobile)
      ensures isProcessing == old(isProcessing) && runDisabled == old(runDisabled) && Shown() == old(Shown())
    {
      this.stealth := stealth;
    }

    /** The first part of the capture button's click handler: nothing
        without a url; otherwise the text still in the input is added,
        the button is disabled, the status list emptied and the counter
        reset, and the request body is built from the urls in order.
        `totalTasks` and the bar's colour are left from the last run. */
    method BeginCapture(pending: string, valid: string -> bool) returns (req: Option<Capture.Request>)
      requires Valid()
      modifies this
      ensures Valid()
      ensures req.None? <==> old(urls) == []
      ensures req.None? ==> urls == old(urls) && isProcessing == old(isProcessing) && Shown() == old(Shown())
      ensures req.Some? ==>
        urls == (if Trim(pending) == [] then old(urls) else KeepAll(old(urls), Admitted(SplitSep(pending), valid))) &&
        req.value == Capture.Request(Some(urls), desktop, mobile, stealth) &&
        isProcessing && runDisabled &&
        Shown() == Board(old(totalTasks), 0, map[], old(finished))
      ensures desktop == old(desktop) && mobile == old(mobile) && stealth == old(stealth)
    {
      if |urls| == 0 {
        return None;
      }
      if Trim(pending) != [] {
        ProcessInputString(pending, valid);
      }
      ResetRun();
      req := Some(Capture.Request(Some(urls), desktop, mobile, stealth));
    }

    /** The button disabled, the status list emptied and the counter
        reset as a run begins. */
    method ResetRun()
      requires Valid()
      modifies this
      ensures Valid()
      ensures isProcessing && runDisabled
      ensures Shown() == Board(old(totalTasks), 0, map[], old(finished))
      ensures urls == old(urls) && desktop == old(desktop) && mobile == old(mobile) && stealth == old(stealth)
    {
      isProcessing := true;
      ValidateRunButton();
      items := map[];
      completedTasks := 0;
    }

    /** The click handler's `finally`. */
    method EndCapture()
      requires Valid()
      modifies this
      ensures Valid()
      ensures !isProcessing && (runDisabled <==> urls == [] || !(desktop || mobile))
      ensures urls == old(urls) && desktop == old(desktop) && mobile == old(mobile) && stealth == old(stealth)
      ensures Shown() == old(Shown())
    {
      isProcessing := false;
      ValidateRunButton();
    }

    /** `handleStreamMessage(msg)` */
    method HandleStreamMessage(e: Event)
      modifies this
      ensures Shown() == Step(old(Shown()), e)
      ensures urls == old(urls) && desktop == old(desktop) && mobile == old(mobile) && stealth == old(stealth)
      ensures isProcessing == old(isProcessing) && runDisabled == old(runDisabled)
    {
      match e
      case Start(total) =>
        totalTasks := total;
      case Progress(url, mode, jobId) =>
        var id := DomId(jobId);
        if id !in items {
          items := items[id := StatusItem(url, StripScheme(url), FormatMode(mode.Name()), Capturing, None)];
        }
        items := items[id := items[id].(badge := Capturing)];
      case Waiting(_, _, jobId) =>
        UpdateStatusItem(jobId, Paused, []);
      case Success(_, _, filepath, jobId) =>
        UpdateStatusItem(jobId, Succeeded, []);
        completedTasks := completedTasks + 1;
      case JobError(_, _, error, jobId) =>
        UpdateStatusItem(jobId, Failed, error);
        completedTasks := completedTasks + 1;
      case RequestError(_) =>
      case Fatal(_) =>
      case Done =>
        if completedTasks == totalTasks && totalTasks > 0 {
          finished := true;
        }
    }

    /** `updateStatusItem(jobId, status, details)` */
    method UpdateStatusItem(jobId: string, badge: Badge, detail: string)
      modifies this
      ensures Shown() == Mark(old(Shown()), jobId, badge, detail)
      ensures urls == old(urls) && desktop == old(desktop) && mobile == old(mobile) && stealth == old(stealth)
      ensures isProcessing == old(isProcessing) && runDisabled == old(runDisabled)
    {
      var id := DomId(jobId);
      if id !in items {
        return;
      }
      var item := items[id].(badge := badge);
      if detail != [] {
        item := item.(detail := Some(detail));
      }
      items := items[id := item];
    }

    /** One line of the stream: a blank line is skipped, a line that does
        not parse is logged and skipped, any other is handled. */
    method HandleLine(line: string, decode: string -> Option<Event>)
      modifies this
      ensures Shown() == Replay(old(Shown()), Messages(NonBlank([line]), decode))
      ensures urls == old(urls) && desktop == old(desktop) && mobile == old(mobile) && stealth == old(stealth)
      ensures isProcessing == old(isProcessing) && runDisabled == old(runDisabled)
    {
      TrimEmptyIffBlank(line);
      if Trim(line) == [] {
        return;
      }
      var msg := decode(line);
      if msg.Some? {
        HandleStreamMessage(msg.value);
      }
    }

    /** `for (const line of lines)`: the complete lines of one read, in
        order. */
    method HandleLines(lines: seq<string>, decode: string -> Option<Event>)
      modifies this
      ensures Shown() == Replay(old(Shown()), Messages(NonBlank(lines), decode))
      ensures urls == old(urls) && desktop == old(desktop) && mobile == old(mobile) && stealth == old(stealth)
      ensures isProcessing == old(isProcessing) && runDisabled == old(runDisabled)
    {
      for j := 0 to |lines|
        invariant Shown() == Replay(old(Shown()), Messages(NonBlank(lines[..j]), decode))
        invariant urls == old(urls) && desktop == old(desktop) && mobile == old(mobile) && stealth == old(stealth)
        invariant isProcessing == old(isProcessing) && runDisabled == old(runDisabled)
      {
        HandleLine(lines[j], decode);
        assert lines[..j + 1] == lines[..j] + [lines[j]];
        ReplayLines(old(Shown()), lines[..j], [lines[j]], decode);
      }
      assert lines[..|lines|] == lines;
    }

    /** `buffer.split('\n')`, `lines.pop()` and the loop over the
        complete lines: every complete line of `buffer` is handled, and
        what follows its last line feed is kept. */
    method Drain(buffer: string, decode: string -> Option<Event>) returns (rest: string)
      modifies this
      ensures rest == Partial(buffer)
      ensures Shown() == Replay(old(Shown()), Messages(NonBlank(Complete(buffer)), decode))
      ensures urls == old(urls) && desktop == old(desktop) && mobile == old(mobile) && stealth == old(stealth)
      ensures isProcessing == old(isProcessing) && runDisabled == old(runDisabled)
    {
      var lines := SplitLines(buffer);
      rest := lines[|lines| - 1];
      HandleLines(lines[..|lines| - 1], decode);
    }

    /** The `while (true)` loop that reads the response: each chunk is
        added to `buffer`, the complete lines are handled and the last,
        partial one is kept; when the stream is done a non-blank remainder
        is handled too. `chunks` are the decoded texts of the chunks, in
        order. Every non-blank line of the whole text is handled exactly
        once, in order, however the text was cut into chunks. */
    method ReadStream(chunks: seq<string>, decode: string -> Option<Event>)
      modifies this
      ensures Shown() == Replay(old(Shown()), Messages(NonBlank(SplitLines(Concat(chunks))), decode))
      ensures urls == old(urls) && desktop == old(desktop) && mobile == old(mobile) && stealth == old(stealth)
      ensures isProcessing == old(isProcessing) && runDisabled == old(runDisabled)
    {
      var buffer := "";
      var i := 0;
      ghost var received := "";
      while true
        invariant 0 <= i <= |chunks| && received == Concat(chunks[..i])
        invariant buffer == Partial(received)
        invariant Shown() == Replay(old(Shown()), Messages(NonBlank(Complete(received)), decode))
        invariant urls == old(urls) && desktop == old(desktop) && mobile == old(mobile) && stealth == old(stealth)
        invariant isProcessing == old(isProcessing) && runDisabled == old(runDisabled)
        decreases |chunks| - i
      {
        var done := i == |chunks|;
        ghost var c := if done then "" else chunks[i];
        if !done {
          buffer := buffer + chunks[i];
        } else {
          assert buffer + c == buffer;
        }
        ghost var next := received + c;
        buffer := Drain(buffer, decode);
        TextStep(received, c);
        ReplayLines(old(Shown()), Complete(received), Complete(Partial(received) + c), decode);
        if done {
          HandleLine(buffer, decode);
          Finish(old(Shown()), next, decode);
          assert next == Concat(chunks) by {
            assert received + c == received;
            assert chunks[..i] == chunks;
          }
          return;
        }
        ChunkStep(chunks, i);
        received := next;
        i := i + 1;
      }
    }
  }

  /** Every piece of a text's split but the last: its complete lines. */
  function Complete(s: string): (r: seq<string>)
    ensures |r| < |SplitLines(s)|
  {
    var p := SplitLines(s);
    p[..|p| - 1]
  }

  /** The last piece of a text's split: what follows its last line feed. */
  function Partial(s: string): string
  {
    var p := SplitLines(s);
    p[|p| - 1]
  }

  /** Handling one run of lines and then the next is handling them
      together. */
  lemma ReplayLines(b: Board, first: seq<string>, rest: seq<string>, decode: string -> Option<Event>)
    ensures Replay(Replay(b, Messages(NonBlank(first), decode)), Messages(NonBlank(rest), decode)) ==
      Replay(b, Messages(NonBlank(first + rest), decode))
  {
    NonBlankAppend(first, rest);
    MessagesAppend(NonBlank(first), NonBlank(rest), decode);
    ReplayAppend(b, Messages(NonBlank(first), decode), Messages(NonBlank(rest), decode));
  }

  /** The text received so far after one more chunk. */
  lemma ChunkStep(chunks: seq<string>, i: nat)
    requires i < |chunks|
    ensures Concat(chunks[..i + 1]) == Concat(chunks[..i]) + chunks[i]
  {
    assert chunks[..i + 1] == chunks[..i] + [chunks[i]];
    ConcatAppend(chunks[..i], chunks[i]);
  }

  /** Splitting the kept partial line continued by a chunk gives the
      received text's new complete lines and its new partial line. */
  lemma TextStep(received: string, c: string)
    ensures Complete(received + c) == Complete(received) + Complete(Partial(received) + c)
    ensures Partial(received + c) == Partial(Partial(received) + c)
  {
    SplitAppend(received, c);
    var r := SplitLines(received);
    FrontAndLast(r[..|r| - 1], SplitLines(Partial(received) + c));
  }

  lemma FrontAndLast(p: seq<string>, q: seq<string>)
    requires q != []
    ensures (p + q)[..|p + q| - 1] == p + q[..|q| - 1] && (p + q)[|p + q| - 1] == q[|q| - 1]
  {
  }

  /** Handling a text's complete lines and then its partial line is
      handling every line of the text. */
  lemma Finish(b: Board, s: string, decode: string -> Option<Event>)
    ensures Replay(Replay(b, Messages(NonBlank(Complete(s)), decode)), Messages(NonBlank([Partial(s)]), decode)) ==
      Replay(b, Messages(NonBlank(SplitLines(s)), decode))
  {
    ReplayLines(b, Complete(s), [Partial(s)], decode);
    assert Complete(s) + [Partial(s)] == SplitLines(s);
  }
}
