/**
 * The naming scheme of the raw stack builder: an (app, process) pair is stored on
 * the backend as the single service name `app + delimiter + process`, and read back
 * by cutting the name at the FIRST occurrence of the delimiter.
 */
module NameCodec {
  import opened Common

  /** The delimiter used when none is configured. */
  const DefaultDelimiter: string := "--"

  /** The two halves of a decoded service name. */
  datatype Parts = Parts(app: string, process: string)

  /** The delimiter in effect: the configured one, or the default when it is empty. */
  function Delimiter(configured: string): (d: string)
    ensures d != []
    ensures configured != [] ==> d == configured
    ensures configured == [] ==> d == DefaultDelimiter
  {
    if configured == [] then DefaultDelimiter else configured
  }

  /** Joins app and process with the delimiter, as strings.Join of the two does. */
  function Join(app: string, process: string, delimiter: string): string
  {
    app + delimiter + process
  }

  /** Names built for one app differ exactly when their process names differ. */
  lemma JoinInjective(app: string, p: string, q: string, delimiter: string)
    requires Join(app, p, delimiter) == Join(app, q, delimiter)
    ensures p == q
  {
    assert Join(app, p, delimiter)[|app| + |delimiter|..] == p;
    assert Join(app, q, delimiter)[|app| + |delimiter|..] == q;
  }

  predicate OccursAt(s: string, d: string, i: int)
  {
    0 <= i && i + |d| <= |s| && s[i..i + |d|] == d
  }

  ghost predicate Contains(s: string, d: string)
  {
    exists i :: OccursAt(s, d, i)
  }

  /** The first occurrence of d in s at or after position i. */
  function IndexFrom(s: string, d: string, i: nat): (r: Option<nat>)
    ensures r.Some? ==> i <= r.value && OccursAt(s, d, r.value)
    ensures r.Some? ==> forall j :: i <= j < r.value ==> !OccursAt(s, d, j)
    ensures r.None? ==> forall j :: i <= j ==> !OccursAt(s, d, j)
    decreases |s| - i
  {
    if i + |d| > |s| then None
    else if s[i..i + |d|] == d then Some(i)
    else IndexFrom(s, d, i + 1)
  }

  /** strings.Index: the position of the first occurrence of d in s. */
  function Index(s: string, d: string): (r: Option<nat>)
    ensures r.None? <==> !Contains(s, d)
    ensures r.Some? ==> OccursAt(s, d, r.value)
    ensures r.Some? ==> forall j :: 0 <= j < r.value ==> !OccursAt(s, d, j)
  {
    IndexFrom(s, d, 0)
  }

  /** An occurrence inside a prefix of s is an occurrence in s, and back. */
  lemma OccursInPrefix(s: string, d: string, n: nat, j: int)
    requires n <= |s|
    requires j + |d| <= n
    ensures OccursAt(s[..n], d, j) <==> OccursAt(s, d, j)
  {
    if 0 <= j {
      assert s[..n][j..j + |d|] == s[j..j + |d|];
    }
  }

  /** Cutting a string in three pieces and concatenating them gives it back. */
  lemma Rejoin(s: string, i: nat, j: nat)
    requires i <= j <= |s|
    ensures s[..i] + s[i..j] + s[j..] == s
  {
    assert forall k :: 0 <= k < |s| ==> (s[..i] + s[i..j] + s[j..])[k] == s[k];
  }

  /**
   * split: cut a service name at the first occurrence of the delimiter in effect.
   * There is no split exactly when the delimiter does not occur; otherwise the two
   * halves rebuild the name, the app half holds no delimiter, and no occurrence of the
   * delimiter in the name starts inside the app half: the cut is at the first one.
   */
  function Split(service: string, configured: string): (r: Option<Parts>)
    ensures r.None? <==> !Contains(service, Delimiter(configured))
    ensures r.Some? ==> Join(r.value.app, r.value.process, Delimiter(configured)) == service
    ensures r.Some? ==> !Contains(r.value.app, Delimiter(configured))
    ensures r.Some? ==> forall j :: 0 <= j < |r.value.app| ==> !OccursAt(service, Delimiter(configured), j)
  {
    var d := Delimiter(configured);
    match Index(service, d)
    case None => None
    case Some(i) =>
      assert service[..i] + d + service[i + |d|..] == service by {
        Rejoin(service, i, i + |d|);
      }
      assert forall j :: !OccursAt(service[..i], d, j) by {
        forall j ensures !OccursAt(service[..i], d, j) {
          if j + |d| <= i {
            OccursInPrefix(service, d, i, j);
          }
        }
      }
      Some(Parts(service[..i], service[i + |d|..]))
  }

  /**
   * The exact round-trip condition: decoding an encoded name gives back the pair
   * if and only if the delimiter does not occur in the app followed by all but the
   * last character of the delimiter. An app free of the delimiter is not enough
   * when it ends with a proper prefix of the delimiter (see TrailingDashBreaksRoundTrip).
   */
  lemma {:induction false} SplitJoin(app: string, process: string, configured: string)
    ensures var d := Delimiter(configured);
      Split(Join(app, process, d), configured) == Some(Parts(app, process))
      <==> !Contains(app + d[..|d| - 1], d)
  {
    var d := Delimiter(configured);
    var s := Join(app, process, d);
    var t := app + d[..|d| - 1];
    assert s[|app|..|app| + |d|] == d;
    assert OccursAt(s, d, |app|);
    assert t == s[..|app| + |d| - 1];
    var i := Index(s, d).value;
    assert i <= |app|;
    if i == |app| {
      assert s[..i] == app && s[i + |d|..] == process;
      forall j ensures !OccursAt(t, d, j) {
        if j + |d| <= |t| {
          OccursInPrefix(s, d, |t|, j);
        }
      }
    } else {
      OccursInPrefix(s, d, |t|, i);
      assert OccursAt(t, d, i);
      assert |Split(s, configured).value.app| == i;
    }
  }

  /** A sufficient condition for the round trip: the delimiter cannot start inside the app. */
  lemma RoundTrip(app: string, process: string, configured: string)
    requires !Contains(app + Delimiter(configured)[..|Delimiter(configured)| - 1], Delimiter(configured))
    ensures Split(Join(app, process, Delimiter(configured)), configured) == Some(Parts(app, process))
  {
    SplitJoin(app, process, configured);
  }

  /** Split cuts at the first occurrence Index reports. */
  lemma SplitAt(service: string, configured: string, k: nat)
    requires Index(service, Delimiter(configured)) == Some(k)
    ensures Split(service, configured) == Some(Parts(service[..k], service[k + |Delimiter(configured)|..]))
  {
  }

  /** The first occurrence in a prefix is the first occurrence in the whole string. */
  lemma IndexInPrefix(s: string, d: string, n: nat, k: nat)
    requires n <= |s|
    requires Index(s[..n], d) == Some(k)
    ensures Index(s, d) == Some(k)
  {
    OccursInPrefix(s, d, n, k);
    var i := Index(s, d).value;
    if i < k {
      OccursInPrefix(s, d, n, i);
      assert false;
    }
  }

  /** A name whose first n characters hold the delimiter is cut inside them. */
  lemma SplitInPrefix(s: string, n: nat, configured: string, k: nat)
    requires n <= |s|
    requires Index(s[..n], Delimiter(configured)) == Some(k)
    ensures Split(s, configured) == Some(Parts(s[..k], s[k + |Delimiter(configured)|..]))
  {
    IndexInPrefix(s, Delimiter(configured), n, k);
    SplitAt(s, configured, k);
  }

  /** The pieces of a joined name around a cut inside the app. */
  lemma JoinSlices(app: string, process: string, d: string, k: nat)
    requires k + |d| <= |app|
    ensures Join(app, process, d)[..|app|] == app
    ensures Join(app, process, d)[..k] == app[..k]
    ensures Join(app, process, d)[k + |d|..] == app[k + |d|..] + d + process
  {
  }

  /**
   * The boundary hazard: when the app itself contains the delimiter, decoding cuts at
   * its first occurrence inside the app and pushes the rest into the process name.
   */
  lemma SplitJoinHazard(app: string, process: string, configured: string, k: nat)
    requires Index(app, Delimiter(configured)) == Some(k)
    ensures var d := Delimiter(configured);
      Split(Join(app, process, d), configured) == Some(Parts(app[..k], app[k + |d|..] + d + process))
  {
    var d := Delimiter(configured);
    JoinSlices(app, process, d, k);
    SplitInPrefix(Join(app, process, d), |app|, configured, k);
  }

  /** Appending one '-' creates "--" only where the app already ends with '-'. */
  lemma {:induction false} DashAppended(app: string)
    ensures Contains(app + ['-'], DefaultDelimiter)
      ==> Contains(app, DefaultDelimiter) || (app != [] && app[|app| - 1] == '-')
  {
    var d, t := DefaultDelimiter, app + ['-'];
    if Contains(t, d) {
      var j :| OccursAt(t, d, j);
      if j + 2 <= |app| {
        assert t[..|app|] == app;
        OccursInPrefix(t, d, |app|, j);
      } else {
        assert j == |app| - 1 && app[|app| - 1] == t[j];
      }
    }
  }

  /** Appending to a string keeps every occurrence it had. */
  lemma ContainsExtended(s: string, t: string, d: string)
    requires Contains(s, d)
    ensures Contains(s + t, d)
  {
    var j :| OccursAt(s, d, j);
    assert (s + t)[..|s|] == s;
    OccursInPrefix(s + t, d, |s|, j);
  }

  /** An app ending with '-' followed by one more '-' holds "--". */
  lemma DashDoubled(app: string)
    requires app != [] && app[|app| - 1] == '-'
    ensures Contains(app + ['-'], DefaultDelimiter)
  {
    var t := app + ['-'];
    assert t[|app| - 1..|app| + 1] == DefaultDelimiter;
    assert OccursAt(t, DefaultDelimiter, |app| - 1);
  }

  /**
   * With the default delimiter "--" the round trip holds exactly when the app has no
   * "--" and does not end with '-'.
   */
  lemma SplitJoinDefault(app: string, process: string)
    ensures Split(Join(app, process, DefaultDelimiter), "") == Some(Parts(app, process))
      <==> !Contains(app, DefaultDelimiter) && (app == [] || app[|app| - 1] != '-')
  {
    SplitJoin(app, process, "");
    assert DefaultDelimiter[..1] == ['-'];
    DashAppended(app);
    if Contains(app, DefaultDelimiter) {
      ContainsExtended(app, ['-'], DefaultDelimiter);
    }
    if app != [] && app[|app| - 1] == '-' {
      DashDoubled(app);
    }
  }

  /** An app holding the delimiter loses its tail to the process name. */
  lemma DelimiterInAppShiftsBoundary()
    ensures Split(Join("a--b", "web", DefaultDelimiter), "") == Some(Parts("a", Join("b", "web", DefaultDelimiter)))
  {
    var app := "a--b";
    assert OccursAt(app, "--", 1);
    assert !OccursAt(app, "--", 0) by { assert app[0..2][0] == 'a'; }
    SplitJoinHazard(app, "web", "", 1);
    assert app[..1] == "a" && app[3..] == "b";
  }

  /** An app with no "--" but ending in '-' does not survive the round trip. */
  lemma TrailingDashBreaksRoundTrip()
    ensures !Contains("a-", DefaultDelimiter)
    ensures Split(Join("a-", "web", DefaultDelimiter), "") == Some(Parts("a", "-web"))
  {
    var s := Join("a-", "web", DefaultDelimiter);
    assert s == "a---web";
    assert !OccursAt(s, "--", 0) by { assert s[0..2][0] == 'a'; }
    assert OccursAt(s, "--", 1) by { assert s[1..3] == "--"; }
    forall j ensures !OccursAt("a-", "--", j) {
      if 0 <= j && j + 2 <= 2 {
        assert "a-"[0..2] != "--";
      }
    }
    assert s[..1] == "a" && s[3..] == "-web";
  }
}
