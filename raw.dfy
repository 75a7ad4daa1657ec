/**
 * The raw stack builder: converges an app onto ECS services by direct backend calls,
 * enumerates the services of an app by scanning the cluster-wide service listing, and
 * removes them.
 */
module Raw {
  import opened Common
  import opened TwelveFactor
  import opened NameCodec
  import opened EcsApi
  import Decimal

  /** A positive integer. */
  type Positive = n: int | n > 0 witness 1

  /** Extraction of the resource id from an ARN; it may fail. */
  type ResourceIdParser = string -> Result<string, Error>

  /** The environment merge of the domain package (app environment, process environment). */
  type EnvMerge = (map<string, string>, map<string, string>) -> map<string, string>

  // ---------------------------------------------------------------------------
  // Services: the paged scan

  /** The ARN is the service of `app` for `process`: its id resolves and splits that way. */
  ghost predicate Decodes(arn: string, resourceId: ResourceIdParser, delimiter: string, app: string, process: string)
  {
    resourceId(arn).Success? && Split(resourceId(arn).value, delimiter) == Some(Parts(app, process))
  }

  /** Every ARN entry of the page has a resource id. */
  ghost predicate Resolves(page: Page, resourceId: ResourceIdParser)
  {
    forall arn :: Some(arn) in page ==> resourceId(arn).Success?
  }

  /** Every found service is named `app + delimiter + process`. */
  ghost predicate Encoded(found: map<string, string>, app: string, delimiter: string)
  {
    forall p :: p in found ==> found[p] == Join(app, p, Delimiter(delimiter))
  }

  /**
   * One entry of a page: nil and undecodable names are skipped, an ARN without a
   * resource id stops the scan (false), and a name of the app records process -> id.
   */
  function Visit(entry: Option<string>, app: string, delimiter: string, resourceId: ResourceIdParser,
                 found: map<string, string>): (map<string, string>, bool)
  {
    match entry
    case None => (found, true)
    case Some(arn) =>
      match resourceId(arn)
      case Failure(_) => (found, false)
      case Success(id) =>
        match Split(id, delimiter)
        case None => (found, true)
        case Some(parts) => (if parts.app == app then found[parts.process := id] else found, true)
  }

  /** The page callback: visit the entries in order; false when the scan must stop. */
  function ScanPage(page: Page, app: string, delimiter: string, resourceId: ResourceIdParser,
                    found: map<string, string>): (map<string, string>, bool)
    decreases |page|
  {
    if page == [] then (found, true)
    else
      var (next, more) := Visit(page[0], app, delimiter, resourceId, found);
      if more then ScanPage(page[1..], app, delimiter, resourceId, next) else (next, false)
  }

  /** The pager: hand the pages to the callback in order until it asks to stop. */
  function ScanPages(pages: seq<Page>, app: string, delimiter: string, resourceId: ResourceIdParser,
                     found: map<string, string>): (map<string, string>, bool)
    decreases |pages|
  {
    if pages == [] then (found, true)
    else
      var (next, more) := ScanPage(pages[0], app, delimiter, resourceId, found);
      if more then ScanPages(pages[1..], app, delimiter, resourceId, next) else (next, false)
  }

  /**
   * The result of Services: the services found, or the listing's error when the scan
   * asked for a page the backend could not deliver.
   */
  function ServicesOf(listing: Listing, app: string, delimiter: string, resourceId: ResourceIdParser)
    : Result<map<string, string>, Error>
  {
    var (found, more) := ScanPages(listing.pages, app, delimiter, resourceId, map[]);
    if more && listing.err.Some? then Failure(listing.err.value) else Success(found)
  }

  /** All entries of all pages, in listing order. */
  function Flatten(pages: seq<Page>): Page
  {
    if pages == [] then [] else pages[0] + Flatten(pages[1..])
  }

  lemma {:induction false} ScanPageEncoded(page: Page, app: string, delimiter: string,
                                           resourceId: ResourceIdParser, found: map<string, string>)
    requires Encoded(found, app, delimiter)
    ensures Encoded(ScanPage(page, app, delimiter, resourceId, found).0, app, delimiter)
    decreases |page|
  {
    if page != [] {
      var (next, more) := Visit(page[0], app, delimiter, resourceId, found);
      if more {
        ScanPageEncoded(page[1..], app, delimiter, resourceId, next);
      }
    }
  }

  /** Scanning a concatenation is scanning the first part, then the rest if not stopped. */
  lemma {:induction false} ScanPageConcat(a: Page, b: Page, app: string, delimiter: string,
                                          resourceId: ResourceIdParser, found: map<string, string>)
    ensures ScanPage(a + b, app, delimiter, resourceId, found) ==
      var (next, more) := ScanPage(a, app, delimiter, resourceId, found);
      if more then ScanPage(b, app, delimiter, resourceId, next) else (next, false)
    decreases |a|
  {
    if a == [] {
      assert a + b == b;
    } else {
      assert (a + b)[0] == a[0];
      assert (a + b)[1..] == a[1..] + b;
      var (next, more) := Visit(a[0], app, delimiter, resourceId, found);
      if more {
        ScanPageConcat(a[1..], b, app, delimiter, resourceId, next);
      }
    }
  }

  /** Page boundaries do not matter: the paged scan is one scan of all entries. */
  lemma {:induction false} ScanPagesFlatten(pages: seq<Page>, app: string, delimiter: string,
                                            resourceId: ResourceIdParser, found: map<string, string>)
    ensures ScanPages(pages, app, delimiter, resourceId, found) ==
            ScanPage(Flatten(pages), app, delimiter, resourceId, found)
    decreases |pages|
  {
    if pages != [] {
      ScanPageConcat(pages[0], Flatten(pages[1..]), app, delimiter, resourceId, found);
      var (next, more) := ScanPage(pages[0], app, delimiter, resourceId, found);
      if more {
        ScanPagesFlatten(pages[1..], app, delimiter, resourceId, next);
      }
    }
  }

  /**
   * What a scan keeps: it never drops a process, every process it adds comes from an
   * entry naming a service of the app, and when every entry resolves it runs to the end
   * and keeps every such process.
   */
  lemma {:induction false} ScanPageKeys(page: Page, app: string, delimiter: string,
                                        resourceId: ResourceIdParser, found: map<string, string>)
    ensures found.Keys <= ScanPage(page, app, delimiter, resourceId, found).0.Keys
    ensures forall p :: p in ScanPage(page, app, delimiter, resourceId, found).0 ==>
      p in found || exists arn :: Some(arn) in page && Decodes(arn, resourceId, delimiter, app, p)
    ensures Resolves(page, resourceId) ==>
      && ScanPage(page, app, delimiter, resourceId, found).1
      && forall arn, p :: Some(arn) in page && Decodes(arn, resourceId, delimiter, app, p) ==>
           p in ScanPage(page, app, delimiter, resourceId, found).0
    decreases |page|
  {
    if page != [] {
      var result := ScanPage(page, app, delimiter, resourceId, found).0;
      var (next, more) := Visit(page[0], app, delimiter, resourceId, found);
      var rest := page[1..];
      assert forall e :: e in rest ==> e in page;
      if more {
        ScanPageKeys(rest, app, delimiter, resourceId, next);
        forall p | p in result && p !in found
          ensures exists arn :: Some(arn) in page && Decodes(arn, resourceId, delimiter, app, p)
        {
          if p !in next {
            var arn :| Some(arn) in rest && Decodes(arn, resourceId, delimiter, app, p);
          } else {
            assert Decodes(page[0].value, resourceId, delimiter, app, p);
          }
        }
        if Resolves(page, resourceId) {
          assert Resolves(rest, resourceId);
          forall arn, p | Some(arn) in page && Decodes(arn, resourceId, delimiter, app, p)
            ensures p in result
          {
            if page[0] == Some(arn) {
              assert p in next;
            }
          }
        }
      } else {
        assert page[0].Some? && resourceId(page[0].value).Failure?;
      }
    }
  }

  /** Every service Services returns is named `app + delimiter + process`. */
  lemma ServicesEncoded(listing: Listing, app: string, delimiter: string, resourceId: ResourceIdParser)
    requires ServicesOf(listing, app, delimiter, resourceId).Success?
    ensures Encoded(ServicesOf(listing, app, delimiter, resourceId).value, app, delimiter)
  {
    ScanPagesFlatten(listing.pages, app, delimiter, resourceId, map[]);
    ScanPageEncoded(Flatten(listing.pages), app, delimiter, resourceId, map[]);
  }

  /**
   * A found service name belongs to one process only, so visiting the names of the
   * mapping visits each of its entries once.
   */
  lemma EncodedInjective(found: map<string, string>, app: string, delimiter: string, p: string, q: string)
    requires Encoded(found, app, delimiter) && p in found && q in found
    requires found[p] == found[q]
    ensures p == q
  {
    JoinInjective(app, p, q, Delimiter(delimiter));
  }

  /** Services returns only services of the app, each read from some entry of some page. */
  lemma ServicesSound(listing: Listing, app: string, delimiter: string, resourceId: ResourceIdParser, p: string)
    requires ServicesOf(listing, app, delimiter, resourceId).Success?
    requires p in ServicesOf(listing, app, delimiter, resourceId).value
    ensures exists arn :: Some(arn) in Flatten(listing.pages) && Decodes(arn, resourceId, delimiter, app, p)
  {
    ScanPagesFlatten(listing.pages, app, delimiter, resourceId, map[]);
    ScanPageKeys(Flatten(listing.pages), app, delimiter, resourceId, map[]);
  }

  /**
   * When every entry resolves, the scan reads all pages: a listing error is returned as
   * is, and otherwise every entry naming a service of the app is in the result, on
   * whatever page it came.
   */
  lemma ServicesComplete(listing: Listing, app: string, delimiter: string, resourceId: ResourceIdParser)
    requires Resolves(Flatten(listing.pages), resourceId)
    ensures listing.err.Some? ==> ServicesOf(listing, app, delimiter, resourceId) == Failure(listing.err.value)
    ensures listing.err.None? ==>
      && ServicesOf(listing, app, delimiter, resourceId).Success?
      && forall arn, p :: Some(arn) in Flatten(listing.pages) && Decodes(arn, resourceId, delimiter, app, p) ==>
           p in ServicesOf(listing, app, delimiter, resourceId).value
  {
    ScanPagesFlatten(listing.pages, app, delimiter, resourceId, map[]);
    ScanPageKeys(Flatten(listing.pages), app, delimiter, resourceId, map[]);
  }

  /**
   * An entry without a resource id ends the scan quietly: Services returns what the
   * entries before it gave, with no error, even when later pages would have failed.
   */
  lemma ServicesStopAtUnresolvable(listing: Listing, app: string, delimiter: string,
                                   resourceId: ResourceIdParser, before: Page, arn: string, after: Page)
    requires Flatten(listing.pages) == before + [Some(arn)] + after
    requires resourceId(arn).Failure?
    ensures ServicesOf(listing, app, delimiter, resourceId) ==
            Success(ScanPage(before, app, delimiter, resourceId, map[]).0)
  {
    ScanPagesFlatten(listing.pages, app, delimiter, resourceId, map[]);
    assert before + [Some(arn)] + after == before + ([Some(arn)] + after);
    ScanPageConcat(before, [Some(arn)] + after, app, delimiter, resourceId, map[]);
  }

  const ArnOfApp: string := "arn:aws:ecs:us-east-1:012345678910:service/app"
  const ArnOfWeb: string := "arn:aws:ecs:us-east-1:012345678910:service/app--web"
  const ArnOfWorker: string := "arn:aws:ecs:us-east-1:012345678910:service/app--worker"

  lemma NoDefaultDelimiterInApp()
    ensures !Contains("app", DefaultDelimiter)
  {
    forall j ensures !OccursAt("app", "--", j) {
      if 0 <= j && j + 2 <= 3 {
        assert "app"[j..j + 2][1] == 'p';
      }
    }
  }

  /** A name without the delimiter and a nil entry are skipped, not errors. */
  lemma ServicesDirtyExample(resourceId: ResourceIdParser)
    requires resourceId(ArnOfApp) == Success("app")
    requires resourceId(ArnOfWeb) == Success("app--web")
    ensures ServicesOf(Listing([[Some(ArnOfApp), Some(ArnOfWeb), None]], None), "app", "", resourceId)
            == Success(map["web" := "app--web"])
  {
    NoDefaultDelimiterInApp();
    SplitJoinDefault("app", "web");
    assert Join("app", "web", DefaultDelimiter) == "app--web";
    var page: Page := [Some(ArnOfApp), Some(ArnOfWeb), None];
    var web := map["web" := "app--web"];
    assert Visit(page[0], "app", "", resourceId, map[]) == (map[], true);
    assert Visit(page[1], "app", "", resourceId, map[]) == (web, true);
    assert ScanPage(page[2..], "app", "", resourceId, web) == (web, true);
    assert page[1..][1..] == page[2..];
    assert ScanPage(page[1..], "app", "", resourceId, map[]) == (web, true);
    assert ScanPage(page, "app", "", resourceId, map[]) == (web, true);
    assert [page][1..] == [];
    assert ScanPages([page], "app", "", resourceId, map[]) == (web, true);
  }

  /** Services found on different pages are merged into one mapping. */
  lemma ServicesPaginationExample(resourceId: ResourceIdParser)
    requires resourceId(ArnOfWeb) == Success("app--web")
    requires resourceId(ArnOfWorker) == Success("app--worker")
    ensures ServicesOf(Listing([[Some(ArnOfWeb)], [Some(ArnOfWorker)]], None), "app", "", resourceId)
            == Success(map["web" := "app--web", "worker" := "app--worker"])
  {
    var web := map["web" := "app--web"];
    var both := web["worker" := "app--worker"];
    assert Join("app", "web", DefaultDelimiter) == "app--web";
    assert Join("app", "worker", DefaultDelimiter) == "app--worker";
    VisitServiceOfApp(resourceId, ArnOfWeb, "web", "app--web", map[]);
    VisitServiceOfApp(resourceId, ArnOfWorker, "worker", "app--worker", web);
    var pages: seq<Page> := [[Some(ArnOfWeb)], [Some(ArnOfWorker)]];
    assert pages[0][1..] == [] && pages[1][1..] == [];
    assert ScanPage(pages[0], "app", "", resourceId, map[]) == (web, true);
    assert ScanPage(pages[1], "app", "", resourceId, web) == (both, true);
    assert pages[1..][0] == pages[1] && pages[1..][1..] == [];
    assert ScanPages(pages[1..], "app", "", resourceId, web) == (both, true);
    assert ScanPages(pages, "app", "", resourceId, map[]) == (both, true);
  }

  /** Visiting the ARN of the app's service for a process records that process. */
  lemma VisitServiceOfApp(resourceId: ResourceIdParser, arn: string, process: string, id: string,
                          found: map<string, string>)
    requires id == Join("app", process, DefaultDelimiter)
    requires resourceId(arn) == Success(id)
    ensures Visit(Some(arn), "app", "", resourceId, found) == (found[process := id], true)
  {
    NoDefaultDelimiterInApp();
    SplitJoinDefault("app", process);
  }

  // ---------------------------------------------------------------------------
  // Task definitions

  /** Go's integer division, which truncates toward zero. */
  function TruncDiv(a: int, b: Positive): int
  {
    if a >= 0 then a / b else -((-a) / b)
  }

  /** On a non-negative dividend TruncDiv gives the whole number of divisors it holds. */
  lemma TruncDivTruncates(a: int, b: Positive)
    requires 0 <= a
    ensures 0 <= TruncDiv(a, b) && TruncDiv(a, b) * b <= a < TruncDiv(a, b) * b + b
  {
    var q, r := a / b, a % b;
    assert a == q * b + r && 0 <= r < b;
  }

  /** TruncDiv rounds toward zero: negating the dividend negates the quotient. */
  lemma TruncDivOdd(a: int, b: Positive)
    ensures TruncDiv(-a, b) == -TruncDiv(a, b)
  {
  }

  lemma TruncDivExamples()
    ensures TruncDiv(7, 2) == 3 && TruncDiv(-7, 2) == -3
  {
  }

  /** The "family:revision" reference to a registered task definition. */
  function TaskDefinitionRef(family: string, revision: nat): string
  {
    family + ":" + Decimal.Format(revision)
  }

  /** The ':' before the revision is the last one of the reference. */
  lemma ColonIsLast(family: string, revision: nat, i: int)
    requires |family| < i < |TaskDefinitionRef(family, revision)|
    ensures TaskDefinitionRef(family, revision)[i] != ':'
  {
    var d := Decimal.Format(revision);
    assert TaskDefinitionRef(family, revision)[i] == d[i - |family| - 1];
  }

  /** The reference is the family, a ':' and a revision number written in decimal. */
  predicate RefersTo(ref: string, family: string)
  {
    && |family| < |ref|
    && ref[..|family| + 1] == family + ":"
    && Decimal.Canonical(ref[|family| + 1..])
  }

  /** RefersTo holds exactly of the references to some revision of the family. */
  lemma RefersToRevision(ref: string, family: string)
    ensures RefersTo(ref, family) <==> exists revision: nat :: ref == TaskDefinitionRef(family, revision)
  {
    if RefersTo(ref, family) {
      var digits := ref[|family| + 1..];
      Decimal.FormatParse(digits);
      assert ref == TaskDefinitionRef(family, Decimal.Parse(digits));
    }
    if exists revision: nat :: ref == TaskDefinitionRef(family, revision) {
      var revision: nat :| ref == TaskDefinitionRef(family, revision);
      assert ref[|family| + 1..] == Decimal.Format(revision);
    }
  }

  /** A reference names one registration: family and revision can be read back from it. */
  lemma {:induction false} TaskDefinitionRefInjective(f1: string, r1: nat, f2: string, r2: nat)
    requires TaskDefinitionRef(f1, r1) == TaskDefinitionRef(f2, r2)
    ensures f1 == f2 && r1 == r2
  {
    var s := TaskDefinitionRef(f1, r1);
    var d1, d2 := Decimal.Format(r1), Decimal.Format(r2);
    assert s == f1 + ":" + d1 == f2 + ":" + d2;
    if |f1| < |f2| {
      ColonIsLast(f1, r1, |f2|);
    } else if |f2| < |f1| {
      ColonIsLast(f2, r2, |f1|);
    } else {
      assert f1 == s[..|f1|] == f2;
      assert d1 == s[|f1| + 1..] == d2;
      Decimal.FormatInjective(r1, r2);
    }
  }

  /**
   * The key/value list holds every variable of env exactly once, with its value: its
   * last pair is a variable of env, and the pairs before it list the others.
   */
  ghost predicate ListsExactly(pairs: seq<KeyValuePair>, env: map<string, string>)
    decreases |pairs|
  {
    if pairs == [] then env == map[]
    else
      var last := pairs[|pairs| - 1];
      && last.name in env && env[last.name] == last.value
      && ListsExactly(pairs[..|pairs| - 1], env - {last.name})
  }

  /** A key/value list read back as a map; a later pair wins over an earlier one. */
  function AsMap(pairs: seq<KeyValuePair>): map<string, string>
  {
    if pairs == [] then map[]
    else AsMap(pairs[..|pairs| - 1])[pairs[|pairs| - 1].name := pairs[|pairs| - 1].value]
  }

  lemma {:induction false} AsMapKeys(pairs: seq<KeyValuePair>)
    ensures forall i :: 0 <= i < |pairs| ==> pairs[i].name in AsMap(pairs)
    ensures |AsMap(pairs)| <= |pairs|
  {
    if pairs != [] {
      var init := pairs[..|pairs| - 1];
      AsMapKeys(init);
      assert forall i :: 0 <= i < |init| ==> pairs[i] == init[i];
    }
  }

  /** A list that lists env reads back as env, with one pair per variable. */
  lemma {:induction false} ListsExactlyAsMap(pairs: seq<KeyValuePair>, env: map<string, string>)
    requires ListsExactly(pairs, env)
    ensures |pairs| == |env| && AsMap(pairs) == env
    decreases |pairs|
  {
    if pairs != [] {
      var n := |pairs| - 1;
      var last := pairs[n];
      var rest := env - {last.name};
      ListsExactlyAsMap(pairs[..n], rest);
      assert env == rest[last.name := last.value];
      assert |env.Keys| == |rest.Keys| + 1 by {
        assert env.Keys == rest.Keys + {last.name};
      }
    }
  }

  /**
   * Conversely, a list that reads back as env and has no more pairs than env has
   * variables lists env exactly: no variable is listed twice.
   */
  lemma {:induction false} AsMapListsExactly(pairs: seq<KeyValuePair>, env: map<string, string>)
    requires |pairs| == |env| && AsMap(pairs) == env
    ensures ListsExactly(pairs, env)
    decreases |pairs|
  {
    if pairs != [] {
      var n := |pairs| - 1;
      var init, last := pairs[..n], pairs[n];
      AsMapKeys(init);
      assert env.Keys == AsMap(init).Keys + {last.name};
      if last.name in AsMap(init) {
        assert false;
      }
      assert AsMap(init) == env - {last.name};
      AsMapListsExactly(init, env - {last.name});
    }
  }

  /** A list that lists env names each variable once, with the value env gives it. */
  lemma {:induction false} ListedOnce(pairs: seq<KeyValuePair>, env: map<string, string>)
    requires ListsExactly(pairs, env)
    ensures forall i, j :: 0 <= i < j < |pairs| ==> pairs[i].name != pairs[j].name
    ensures forall i :: 0 <= i < |pairs| ==> pairs[i].name in env && env[pairs[i].name] == pairs[i].value
    decreases |pairs|
  {
    if pairs != [] {
      var n := |pairs| - 1;
      var init := pairs[..n];
      ListedOnce(init, env - {pairs[n].name});
      assert forall i :: 0 <= i < n ==> pairs[i] == init[i];
    }
  }

  /** The environment as a key/value list, in the map's (unspecified) iteration order. */
  method EnvironmentPairs(env: map<string, string>) returns (pairs: seq<KeyValuePair>)
    ensures ListsExactly(pairs, env)
  {
    pairs := [];
    var pending := env.Keys;
    while pending != {}
      invariant pending <= env.Keys
      invariant ListsExactly(pairs, map k | k in env.Keys - pending :: env[k])
      decreases |pending|
    {
      var k :| k in pending;
      ghost var listed := map k | k in env.Keys - pending :: env[k];
      ghost var previous := pairs;
      pairs := pairs + [KeyValuePair(k, env[k])];
      pending := pending - {k};
      assert pairs[..|pairs| - 1] == previous;
      assert (map k | k in env.Keys - pending :: env[k]) - {k} == listed;
    }
    assert (map k | k in env.Keys - pending :: env[k]) == env;
  }

  lemma AppendAssociates<T>(a: seq<T>, b: seq<T>, c: seq<T>)
    ensures a + (b + c) == (a + b) + c
  {
  }

  ghost predicate Distinct(names: seq<string>)
  {
    forall i, j :: 0 <= i < j < |names| ==> names[i] != names[j]
  }

  lemma DistinctSnoc(names: seq<string>, name: string)
    requires Distinct(names) && name !in names
    ensures Distinct(names + [name])
  {
  }

  /** The effect of a run of backend calls: the final state, the calls issued, and the error. */
  datatype Outcome = Outcome(backend: Backend, calls: seq<Call>, err: Option<Error>)

  /** Remove's deletes: one per name, in order, stopping at the first that fails. */
  function DeleteAll(faults: map<Call, Error>, b: Backend, names: seq<string>): Outcome
    decreases |names|
  {
    if names == [] then Outcome(b, [], None)
    else
      var call := DeleteServiceCall(names[0]);
      var (next, err) := Perform(faults, b, call);
      if err.Some? then Outcome(next, [call], err)
      else
        var rest := DeleteAll(faults, next, names[1..]);
        Outcome(rest.backend, [call] + rest.calls, rest.err)
  }

  /** One more delete after a run of successful deletes. */
  lemma {:induction false} DeleteAllSnoc(faults: map<Call, Error>, b: Backend, names: seq<string>, name: string)
    requires DeleteAll(faults, b, names).err.None?
    ensures DeleteAll(faults, b, names + [name]) ==
      var o := DeleteAll(faults, b, names);
      var (after, err) := Perform(faults, o.backend, DeleteServiceCall(name));
      Outcome(after, o.calls + [DeleteServiceCall(name)], err)
    decreases |names|
  {
    if names == [] {
      assert names + [name] == [name];
    } else {
      var call, last := DeleteServiceCall(names[0]), DeleteServiceCall(name);
      var (next, err) := Perform(faults, b, call);
      var rest := DeleteAll(faults, next, names[1..]);
      assert DeleteAll(faults, b, names) == Outcome(rest.backend, [call] + rest.calls, None);
      assert (names + [name])[0] == names[0] && (names + [name])[1..] == names[1..] + [name];
      DeleteAllSnoc(faults, next, names[1..], name);
      AppendAssociates([call], rest.calls, [last]);
    }
  }

  /**
   * What a run of deletes of distinct names does: it succeeds exactly when every name is
   * a live service whose delete is not faulted, and then the named services, and nothing
   * else, are gone. It issues one delete per name, in order, up to the first failure.
   */
  lemma {:induction false} DeleteAllSpec(faults: map<Call, Error>, b: Backend, names: seq<string>)
    requires Distinct(names)
    ensures var o := DeleteAll(faults, b, names);
      && |o.calls| <= |names|
      && (forall i :: 0 <= i < |o.calls| ==> o.calls[i] == DeleteServiceCall(names[i]))
      && (o.err.None? <==>
            forall i :: 0 <= i < |names| ==> names[i] in b.services && DeleteServiceCall(names[i]) !in faults)
      && (o.err.None? ==> |o.calls| == |names|)
      && (o.err.None? ==> o.backend == b.(services := b.services - set i | 0 <= i < |names| :: names[i]))
    decreases |names|
  {
    if names != [] {
      var call := DeleteServiceCall(names[0]);
      var (next, err) := Perform(faults, b, call);
      if err.None? {
        var rest := names[1..];
        assert Distinct(rest);
        DeleteAllSpec(faults, next, rest);
        assert next.services == b.services - {names[0]};
        assert forall i :: 0 <= i < |rest| ==> rest[i] != names[0];
        var all, tail := set i | 0 <= i < |names| :: names[i], set i | 0 <= i < |rest| :: rest[i];
        assert all == {names[0]} + tail by {
          forall n | n in all
            ensures n in {names[0]} + tail
          {
            var i :| 0 <= i < |names| && names[i] == n;
            if i > 0 {
              assert rest[i - 1] == n;
            }
          }
        }
        var o := DeleteAll(faults, b, names);
        forall i | 0 <= i < |o.calls|
          ensures o.calls[i] == DeleteServiceCall(names[i])
        {
          if i > 0 {
            assert o.calls[i] == DeleteAll(faults, next, rest).calls[i - 1];
          }
        }
      }
    }
  }

  /**
   * Where a failed run of deletes stops: the deletes of the names before the k-th all
   * succeed, and the k-th is the last delete issued, whose failure is the run's.
   */
  lemma {:induction false} DeleteAllFails(faults: map<Call, Error>, b: Backend, names: seq<string>)
    requires DeleteAll(faults, b, names).err.Some?
    ensures var o := DeleteAll(faults, b, names);
      var k := |o.calls| - 1;
      && 0 <= k < |names|
      && DeleteAll(faults, b, names[..k]).err.None?
      && (o.backend, o.err) == Perform(faults, DeleteAll(faults, b, names[..k]).backend, DeleteServiceCall(names[k]))
    decreases |names|
  {
    var call := DeleteServiceCall(names[0]);
    var (next, err) := Perform(faults, b, call);
    if err.Some? {
      assert names[..0] == [];
    } else {
      var rest := names[1..];
      DeleteAllFails(faults, next, rest);
      var k' := |DeleteAll(faults, next, rest).calls| - 1;
      assert names[..k' + 1][0] == names[0] && names[..k' + 1][1..] == rest[..k'];
      assert names[k' + 1] == rest[k'];
    }
  }

  /**
   * What a failed run of deletes of distinct names leaves: the services named before the
   * failing delete are gone, every other service and every revision is as it was, and the
   * error is the backend's answer to that delete.
   */
  lemma DeleteAllFailureState(faults: map<Call, Error>, b: Backend, names: seq<string>)
    requires Distinct(names) && DeleteAll(faults, b, names).err.Some?
    ensures var o := DeleteAll(faults, b, names);
      var k := |o.calls| - 1;
      && 0 <= k < |names|
      && o.backend == b.(services := b.services - set i | 0 <= i < k :: names[i])
      && o.err == Rejection(faults, o.backend.services, DeleteServiceCall(names[k]))
  {
    var o := DeleteAll(faults, b, names);
    DeleteAllFails(faults, b, names);
    var k := |o.calls| - 1;
    var prefix := names[..k];
    assert Distinct(prefix);
    DeleteAllSpec(faults, b, prefix);
    assert (set i | 0 <= i < |prefix| :: prefix[i]) == (set i | 0 <= i < k :: names[i]) by {
      assert forall i :: 0 <= i < k ==> prefix[i] == names[i];
    }
  }

  // ---------------------------------------------------------------------------
  // The builder

  class StackBuilder {
    /** The configured delimiter; empty means the default. */
    const delimiter: string
    /** The number of bytes in a megabyte, as the byte-size package defines it. */
    const mb: Positive
    const mergeEnv: EnvMerge
    const resourceId: ResourceIdParser
    const ecs: Client

    constructor (ecs: Client, delimiter: string, mb: Positive, mergeEnv: EnvMerge, resourceId: ResourceIdParser)
      ensures this.ecs == ecs && this.delimiter == delimiter && this.mb == mb
      ensures this.mergeEnv == mergeEnv && this.resourceId == resourceId
    {
      this.ecs := ecs;
      this.delimiter := delimiter;
      this.mb := mb;
      this.mergeEnv := mergeEnv;
      this.resourceId := resourceId;
    }

    /** The service name, and task-definition family, of a process of the app. */
    function ServiceName(app: App, p: Process): string
    {
      Join(app.id, p.name, Delimiter(delimiter))
    }

    /** The container definition a process is registered with, given its environment list. */
    function Container(app: App, p: Process, environment: seq<KeyValuePair>): ContainerDefinition
    {
      ContainerDefinition(p.name, p.cpuShares, p.command, app.image, TruncDiv(p.memory, mb), environment)
    }

    /** The registration request CreateService issues for a process, given its environment list. */
    function Registration(app: App, p: Process, environment: seq<KeyValuePair>): Call
    {
      RegisterTaskDefinitionCall(ServiceName(app, p), Container(app, p, environment))
    }

    /**
     * CreateService's effect on the backend: register the process's task definition and,
     * unless that fails, create (or replace) its service on the new "family:revision".
     */
    function CreateOutcome(b: Backend, app: App, p: Process, environment: seq<KeyValuePair>): Outcome
    {
      var family := ServiceName(app, p);
      var registration := Registration(app, p, environment);
      var (registered, err) := Perform(ecs.faults, b, registration);
      if err.Some? then Outcome(registered, [registration], err)
      else
        var creation := CreateServiceCall(family, TaskDefinitionRef(family, NextRevision(b.revisions, family)), p.desiredCount);
        var (created, err') := Perform(ecs.faults, registered, creation);
        Outcome(created, [registration, creation], err')
    }

    /**
     * CreateService in the backend's terms: it registers a new revision of the family and
     * points the service at exactly that revision with the process's count, or it fails
     * and leaves the services as they were. A failed registration is the only call issued
     * and its error is returned; otherwise the creation follows and its answer is returned.
     */
    lemma CreateOutcomeSpec(b: Backend, app: App, p: Process, environment: seq<KeyValuePair>)
      ensures var o := CreateOutcome(b, app, p, environment);
        var family := ServiceName(app, p);
        var revision := NextRevision(b.revisions, family);
        var registration := Registration(app, p, environment);
        var creation := CreateServiceCall(family, TaskDefinitionRef(family, revision), p.desiredCount);
        && 1 <= |o.calls| <= 2
        && o.calls[0] == registration
        && (registration in ecs.faults ==> o.calls == [registration] && o.err == Some(ecs.faults[registration]))
        && (registration !in ecs.faults ==> o.calls == [registration, creation] && o.err == Rejection(ecs.faults, b.services, creation))
        && (o.err.None? ==> o.calls == [Registration(app, p, environment), CreateServiceCall(family, TaskDefinitionRef(family, revision), p.desiredCount)])
        && (o.err.None? <==> Registration(app, p, environment) !in ecs.faults
                             && CreateServiceCall(family, TaskDefinitionRef(family, revision), p.desiredCount) !in ecs.faults)
        && (o.err.None? ==> o.backend.services == b.services[family := Service(TaskDefinitionRef(family, revision), p.desiredCount)])
        && (o.err.Some? ==> o.backend.services == b.services)
        && (registration in ecs.faults ==> o.backend.revisions == b.revisions)
        && (registration !in ecs.faults ==> o.backend.revisions == b.revisions[family := revision])
    {
    }

    /** Build's effect: CreateService for each process in order, stopping at the first error. */
    function BuildOutcome(b: Backend, app: App, processes: seq<Process>, environments: seq<seq<KeyValuePair>>): Outcome
      requires |environments| == |processes|
      decreases |processes|
    {
      if processes == [] then Outcome(b, [], None)
      else
        var first := CreateOutcome(b, app, processes[0], environments[0]);
        if first.err.Some? then first
        else
          var rest := BuildOutcome(first.backend, app, processes[1..], environments[1..]);
          Outcome(rest.backend, first.calls + rest.calls, rest.err)
    }

    /** One more process after a run of successful ones. */
    lemma {:induction false} BuildOutcomeSnoc(b: Backend, app: App, processes: seq<Process>,
                                              environments: seq<seq<KeyValuePair>>, p: Process, environment: seq<KeyValuePair>)
      requires |environments| == |processes|
      requires BuildOutcome(b, app, processes, environments).err.None?
      ensures BuildOutcome(b, app, processes + [p], environments + [environment]) ==
        var o := BuildOutcome(b, app, processes, environments);
        var last := CreateOutcome(o.backend, app, p, environment);
        Outcome(last.backend, o.calls + last.calls, last.err)
      decreases |processes|
    {
      if processes == [] {
        assert processes + [p] == [p] && environments + [environment] == [environment];
      } else {
        var first := CreateOutcome(b, app, processes[0], environments[0]);
        assert (processes + [p])[1..] == processes[1..] + [p];
        assert (environments + [environment])[1..] == environments[1..] + [environment];
        BuildOutcomeSnoc(first.backend, app, processes[1..], environments[1..], p, environment);
        var rest := BuildOutcome(first.backend, app, processes[1..], environments[1..]);
        var last := CreateOutcome(rest.backend, app, p, environment);
        assert first.calls + (rest.calls + last.calls) == (first.calls + rest.calls) + last.calls;
      }
    }

    /** The same step, read on prefixes of the process list. */
    lemma BuildOutcomeNext(b: Backend, app: App, processes: seq<Process>, environments: seq<seq<KeyValuePair>>, i: nat)
      requires i < |processes| && |environments| == i + 1
      requires BuildOutcome(b, app, processes[..i], environments[..i]).err.None?
      ensures BuildOutcome(b, app, processes[..i + 1], environments) ==
        var o := BuildOutcome(b, app, processes[..i], environments[..i]);
        var last := CreateOutcome(o.backend, app, processes[i], environments[i]);
        Outcome(last.backend, o.calls + last.calls, last.err)
    {
      assert processes[..i + 1] == processes[..i] + [processes[i]];
      assert environments == environments[..i] + [environments[i]];
      BuildOutcomeSnoc(b, app, processes[..i], environments[..i], processes[i], environments[i]);
    }

    /**
     * The environment lists of the processes Build attempted: each holds the merged
     * environment of its process, every variable once.
     */
    ghost predicate EnvironmentsListed(app: App, processes: seq<Process>, environments: seq<seq<KeyValuePair>>)
      decreases |environments|
    {
      && |environments| <= |processes|
      && (environments != [] ==>
            var n := |environments| - 1;
            && EnvironmentsListed(app, processes, environments[..n])
            && ListsExactly(environments[n], mergeEnv(app.env, processes[n].env)))
    }

    lemma {:induction false} EnvironmentsListedAt(app: App, processes: seq<Process>, environments: seq<seq<KeyValuePair>>, j: nat)
      requires EnvironmentsListed(app, processes, environments) && j < |environments|
      ensures ListsExactly(environments[j], mergeEnv(app.env, processes[j].env))
      decreases |environments|
    {
      var n := |environments| - 1;
      if j < n {
        EnvironmentsListedAt(app, processes, environments[..n], j);
      }
    }

    /** Once a process fails, the processes after it make no difference: Build has stopped. */
    lemma {:induction false} BuildOutcomeStops(b: Backend, app: App, processes: seq<Process>,
                                               environments: seq<seq<KeyValuePair>>, k: nat)
      requires |environments| == |processes| && k <= |processes|
      requires BuildOutcome(b, app, processes[..k], environments[..k]).err.Some?
      ensures BuildOutcome(b, app, processes, environments) == BuildOutcome(b, app, processes[..k], environments[..k])
      decreases k
    {
      var ps, es := processes[..k], environments[..k];
      assert ps != [];
      assert ps[0] == processes[0] && es[0] == environments[0];
      var first := CreateOutcome(b, app, processes[0], environments[0]);
      if first.err.None? {
        assert ps[1..] == processes[1..][..k - 1] && es[1..] == environments[1..][..k - 1];
        BuildOutcomeStops(first.backend, app, processes[1..], environments[1..], k - 1);
      }
    }

    /**
     * The desired count of every service the processes name; a later process of the
     * same service name wins.
     */
    ghost function Desired(app: App, processes: seq<Process>): map<string, int>
      decreases |processes|
    {
      if processes == [] then map[]
      else map[ServiceName(app, processes[0]) := processes[0].desiredCount] + Desired(app, processes[1..])
    }

    /** The services Desired speaks of are exactly those of the processes. */
    lemma {:induction false} DesiredKeys(app: App, processes: seq<Process>)
      ensures forall n :: n in Desired(app, processes) <==> exists i :: 0 <= i < |processes| && ServiceName(app, processes[i]) == n
      decreases |processes|
    {
      if processes != [] {
        DesiredKeys(app, processes[1..]);
        forall n | exists i :: 0 <= i < |processes| && ServiceName(app, processes[i]) == n
          ensures n in Desired(app, processes)
        {
          var i :| 0 <= i < |processes| && ServiceName(app, processes[i]) == n;
          if i > 0 {
            assert ServiceName(app, processes[1..][i - 1]) == n;
          }
        }
        forall n | n in Desired(app, processes[1..])
          ensures exists i :: 0 <= i < |processes| && ServiceName(app, processes[i]) == n
        {
          var i :| 0 <= i < |processes[1..]| && ServiceName(app, processes[1..][i]) == n;
          assert ServiceName(app, processes[i + 1]) == n;
        }
      }
    }

    /** With unique process names, every process's service is desired at that process's count. */
    lemma {:induction false} DesiredUnique(app: App, processes: seq<Process>, j: nat)
      requires UniqueNames(processes) && j < |processes|
      ensures ServiceName(app, processes[j]) in Desired(app, processes)
      ensures Desired(app, processes)[ServiceName(app, processes[j])] == processes[j].desiredCount
      decreases |processes|
    {
      var rest := processes[1..];
      var name := ServiceName(app, processes[j]);
      assert Desired(app, processes) == map[ServiceName(app, processes[0]) := processes[0].desiredCount] + Desired(app, rest);
      if j == 0 {
        assert name !in Desired(app, rest) by {
          DesiredKeys(app, rest);
          if name in Desired(app, rest) {
            var i :| 0 <= i < |rest| && ServiceName(app, rest[i]) == name;
            JoinInjective(app.id, rest[i].name, processes[0].name, Delimiter(delimiter));
            assert false;
          }
        }
      } else {
        assert rest[j - 1] == processes[j];
        assert UniqueNames(rest);
        DesiredUnique(app, rest, j - 1);
      }
    }

    /**
     * The services after a run of creations: every desired service runs at its desired
     * count, every other service is untouched, and no service disappears.
     */
    ghost predicate Converged(before: map<string, Service>, after: map<string, Service>, app: App, processes: seq<Process>)
    {
      var desired := Desired(app, processes);
      && after.Keys == before.Keys + desired.Keys
      && (forall n :: n in before && n !in desired ==> after[n] == before[n])
      && (forall n :: n in desired ==> after[n].desiredCount == desired[n])
    }

    /** Creating the first process's service, then converging the rest, converges them all. */
    lemma ConvergedCons(before: map<string, Service>, mid: map<string, Service>, after: map<string, Service>,
                        app: App, processes: seq<Process>, service: Service)
      requires processes != [] && service.desiredCount == processes[0].desiredCount
      requires mid == before[ServiceName(app, processes[0]) := service]
      requires Converged(mid, after, app, processes[1..])
      ensures Converged(before, after, app, processes)
    {
      assert Desired(app, processes) == map[ServiceName(app, processes[0]) := processes[0].desiredCount] + Desired(app, processes[1..]);
    }

    /** Building a non-empty prefix of the processes: the first one, then the rest of the prefix. */
    lemma BuildOutcomePrefix(b: Backend, app: App, processes: seq<Process>, environments: seq<seq<KeyValuePair>>, j: nat)
      requires |environments| == |processes| && 1 <= j <= |processes|
      ensures var first := CreateOutcome(b, app, processes[0], environments[0]);
        BuildOutcome(b, app, processes[..j], environments[..j]).err ==
          if first.err.Some? then first.err
          else BuildOutcome(first.backend, app, processes[1..][..j - 1], environments[1..][..j - 1]).err
    {
      assert processes[..j][0] == processes[0] && processes[..j][1..] == processes[1..][..j - 1];
      assert environments[..j][0] == environments[0] && environments[..j][1..] == environments[1..][..j - 1];
    }

    /**
     * What Build converges: the processes before the one that failed (all of them on
     * success) have their services at the counts they ask for, and no other service changes.
     * The returned k is that failing process: the first k processes build without error,
     * and adding the k-th makes the build fail.
     */
    lemma {:induction false} BuildConverges(b: Backend, app: App, processes: seq<Process>,
                                            environments: seq<seq<KeyValuePair>>) returns (k: nat)
      requires |environments| == |processes|
      ensures k <= |processes|
      ensures BuildOutcome(b, app, processes, environments).err.None? ==> k == |processes|
      ensures BuildOutcome(b, app, processes, environments).err.Some? ==> k < |processes|
      ensures BuildOutcome(b, app, processes[..k], environments[..k]).err.None?
      ensures k < |processes| ==> BuildOutcome(b, app, processes[..k + 1], environments[..k + 1]).err.Some?
      ensures Converged(b.services, BuildOutcome(b, app, processes, environments).backend.services, app, processes[..k])
      decreases |processes|
    {
      if processes == [] {
        return 0;
      }
      var first := CreateOutcome(b, app, processes[0], environments[0]);
      var family := ServiceName(app, processes[0]);
      assert first.err.Some? ==> first.backend.services == b.services by {
        CreateOutcomeSpec(b, app, processes[0], environments[0]);
      }
      assert first.err.None? ==>
        && family in first.backend.services
        && first.backend.services == b.services[family := first.backend.services[family]]
        && first.backend.services[family].desiredCount == processes[0].desiredCount by {
        CreateOutcomeSpec(b, app, processes[0], environments[0]);
      }
      if first.err.Some? {
        assert Desired(app, processes[..0]) == map[];
        assert processes[..0] == [];
        BuildOutcomePrefix(b, app, processes, environments, 1);
        return 0;
      }
      var rest, restEnvironments := processes[1..], environments[1..];
      var k' := BuildConverges(first.backend, app, rest, restEnvironments);
      k := k' + 1;
      BuildOutcomePrefix(b, app, processes, environments, k);
      if k < |processes| {
        BuildOutcomePrefix(b, app, processes, environments, k + 1);
      }
      assert processes[..k][0] == processes[0] && processes[..k][1..] == rest[..k'];
      ConvergedCons(b.services, first.backend.services, BuildOutcome(b, app, processes, environments).backend.services,
                    app, processes[..k], first.backend.services[family]);
    }

    /** With unique process names, a successful Build leaves every process's service at its count. */
    lemma BuildSucceeds(b: Backend, app: App, processes: seq<Process>, environments: seq<seq<KeyValuePair>>, j: nat)
      requires |environments| == |processes| && UniqueNames(processes) && j < |processes|
      requires BuildOutcome(b, app, processes, environments).err.None?
      ensures var after := BuildOutcome(b, app, processes, environments).backend.services;
        ServiceName(app, processes[j]) in after && after[ServiceName(app, processes[j])].desiredCount == processes[j].desiredCount
    {
      var k := BuildConverges(b, app, processes, environments);
      assert processes[..k] == processes;
      DesiredUnique(app, processes, j);
    }

    /**
     * Services: the app's services as process -> service name, read from every page of
     * the cluster-wide listing.
     */
    method Services(app: string) returns (r: Result<map<string, string>, Error>)
      ensures r == ServicesOf(ecs.listing, app, delimiter, resourceId)
      ensures r.Success? ==> Encoded(r.value, app, delimiter)
    {
      var pages := ecs.listing.pages;
      var services: map<string, string> := map[];
      var i := 0;
      var more := true;
      while i < |pages| && more
        invariant 0 <= i <= |pages|
        invariant ScanPages(pages, app, delimiter, resourceId, map[]) ==
          if more then ScanPages(pages[i..], app, delimiter, resourceId, services) else (services, false)
      {
        var page := pages[i];
        ghost var before := services;
        var j := 0;
        var cont := true;
        while j < |page| && cont
          invariant 0 <= j <= |page|
          invariant ScanPage(page, app, delimiter, resourceId, before) ==
            if cont then ScanPage(page[j..], app, delimiter, resourceId, services) else (services, false)
        {
          assert page[j..][0] == page[j] && page[j..][1..] == page[j + 1..];
          var entry := page[j];
          if entry.Some? {
            var id := resourceId(entry.value);
            if id.Failure? {
              cont := false;
            } else {
              var parts := Split(id.value, delimiter);
              if parts.Some? && parts.value.app == app {
                services := services[parts.value.process := id.value];
              }
            }
          }
          j := j + 1;
        }
        assert pages[i..][0] == page && pages[i..][1..] == pages[i + 1..];
        more := cont;
        i := i + 1;
      }
      if more && ecs.listing.err.Some? {
        r := Failure(ecs.listing.err.value);
      } else {
        r := Success(services);
        ServicesEncoded(ecs.listing, app, delimiter, resourceId);
      }
    }

    /**
     * RegisterTaskDefinition: registers a new revision of the process's family and answers
     * its "family:revision". The container carries the process's name, CPU shares, command,
     * the app's image, the memory in megabytes, and the merged environment listed once per
     * variable (in the map's iteration order).
     */
    method RegisterTaskDefinition(app: App, p: Process) returns (r: Result<string, Error>, ghost environment: seq<KeyValuePair>)
      modifies ecs
      ensures ListsExactly(environment, mergeEnv(app.env, p.env))
      ensures ecs.log == old(ecs.log) + [Registration(app, p, environment)]
      ensures (ecs.State(), if r.Failure? then Some(r.error) else None)
              == Perform(ecs.faults, old(ecs.State()), Registration(app, p, environment))
      ensures r.Success? ==> r.value == TaskDefinitionRef(ServiceName(app, p), NextRevision(old(ecs.revisions), ServiceName(app, p)))
    {
      var family := Join(app.id, p.name, Delimiter(delimiter));
      var command: seq<string> := [];
      var i := 0;
      while i < |p.command|
        invariant 0 <= i <= |p.command|
        invariant command == p.command[..i]
      {
        command := command + [p.command[i]];
        i := i + 1;
      }
      assert command == p.command;
      var pairs := EnvironmentPairs(mergeEnv(app.env, p.env));
      environment := pairs;
      var container := ContainerDefinition(p.name, p.cpuShares, command, app.image, TruncDiv(p.memory, mb), pairs);
      var response := ecs.RegisterTaskDefinition(family, container);
      if response.Failure? {
        return Failure(response.error), environment;
      }
      r := Success(TaskDefinitionRef(response.value.family, response.value.revision));
    }

    /** CreateService: registers the process's task definition, then creates its service. */
    method CreateService(app: App, p: Process) returns (err: Option<Error>, ghost environment: seq<KeyValuePair>)
      modifies ecs
      ensures ListsExactly(environment, mergeEnv(app.env, p.env))
      ensures var o := CreateOutcome(old(ecs.State()), app, p, environment);
        ecs.State() == o.backend && ecs.log == old(ecs.log) + o.calls && err == o.err
    {
      var name := Join(app.id, p.name, Delimiter(delimiter));
      var taskDefinition;
      taskDefinition, environment := RegisterTaskDefinition(app, p);
      if taskDefinition.Failure? {
        return Some(taskDefinition.error), environment;
      }
      err := ecs.CreateService(name, taskDefinition.value, p.desiredCount);
    }

    /**
     * Build: CreateService for each process in order, stopping at the first error. The
     * ghost `environments` are the environment lists of the processes attempted.
     */
    method Build(app: App, processes: seq<Process>) returns (err: Option<Error>, ghost environments: seq<seq<KeyValuePair>>)
      modifies ecs
      ensures EnvironmentsListed(app, processes, environments)
      ensures var o := BuildOutcome(old(ecs.State()), app, processes[..|environments|], environments);
        ecs.State() == o.backend && ecs.log == old(ecs.log) + o.calls && err == o.err
      ensures err.None? ==> |environments| == |processes|
      ensures err.Some? ==>
        0 < |environments| && BuildOutcome(old(ecs.State()), app, processes[..|environments| - 1], environments[..|environments| - 1]).err.None?
    {
      environments := [];
      ghost var b0, log0 := ecs.State(), ecs.log;
      var i := 0;
      while i < |processes|
        invariant 0 <= i <= |processes| && |environments| == i
        invariant EnvironmentsListed(app, processes, environments)
        invariant var o := BuildOutcome(b0, app, processes[..i], environments);
          ecs.State() == o.backend && ecs.log == log0 + o.calls && o.err.None?
      {
        ghost var previous, done, state := environments, BuildOutcome(b0, app, processes[..i], environments), ecs.State();
        var e;
        ghost var environment;
        e, environment := CreateService(app, processes[i]);
        AppendAssociates(log0, done.calls, CreateOutcome(state, app, processes[i], environment).calls);
        environments := environments + [environment];
        assert environments[..i] == previous;
        BuildOutcomeNext(b0, app, processes, environments, i);
        if e.Some? {
          return e, environments;
        }
        i := i + 1;
      }
      assert processes[..i] == processes;
      err := None;
    }

    /**
     * The delete loop of Remove: one delete per service, in an unspecified order, stopping
     * at the first error. The ghost `order` is the services a delete was issued for.
     */
    method DeleteEach(services: set<string>) returns (err: Option<Error>, ghost order: seq<string>)
      modifies ecs
      ensures var o := DeleteAll(ecs.faults, old(ecs.State()), order);
        ecs.State() == o.backend && ecs.log == old(ecs.log) + o.calls && err == o.err
      ensures Distinct(order)
      ensures forall i :: 0 <= i < |order| ==> order[i] in services
      ensures err.None? ==> forall s :: s in services ==> s in order
      ensures err.Some? ==> order != [] && DeleteAll(ecs.faults, old(ecs.State()), order[..|order| - 1]).err.None?
    {
      order := [];
      ghost var b0, log0 := ecs.State(), ecs.log;
      ghost var done := DeleteAll(ecs.faults, b0, order);
      var pending := services;
      while pending != {}
        invariant pending <= services
        invariant forall s :: s in order <==> s in services && s !in pending
        invariant Distinct(order)
        invariant done == DeleteAll(ecs.faults, b0, order) && done.err.None?
        invariant ecs.State() == done.backend && ecs.log == log0 + done.calls
        decreases |pending|
      {
        var service :| service in pending;
        AppendAssociates(log0, done.calls, [DeleteServiceCall(service)]);
        err := ecs.DeleteService(service);
        DeleteAllSnoc(ecs.faults, b0, order, service);
        DistinctSnoc(order, service);
        assert (order + [service])[..|order|] == order;
        order, done := order + [service], DeleteAll(ecs.faults, b0, order + [service]);
        if err.Some? {
          return;
        }
        pending := pending - {service};
      }
      err := None;
    }

    /**
     * Remove: deletes every service of the app, in the (unspecified) iteration order of
     * the mapping Services returns, stopping at the first error. The ghost `order` is the
     * services a delete was issued for.
     */
    method Remove(app: string) returns (err: Option<Error>, ghost order: seq<string>)
      modifies ecs
      ensures var found := ServicesOf(ecs.listing, app, delimiter, resourceId);
        found.Failure? ==> err == Some(found.error) && order == [] && ecs.State() == old(ecs.State()) && ecs.log == old(ecs.log)
      ensures var found := ServicesOf(ecs.listing, app, delimiter, resourceId);
        found.Success? ==>
          && (var o := DeleteAll(ecs.faults, old(ecs.State()), order);
              ecs.State() == o.backend && ecs.log == old(ecs.log) + o.calls && err == o.err)
          && Distinct(order)
          && (forall i :: 0 <= i < |order| ==> order[i] in found.value.Values)
          && (err.None? ==> forall s :: s in found.value.Values ==> s in order)
          && (err.Some? ==> order != [] && DeleteAll(ecs.faults, old(ecs.State()), order[..|order| - 1]).err.None?)
    {
      var found := Services(app);
      if found.Failure? {
        return Some(found.error), [];
      }
      err, order := DeleteEach(found.value.Values);
    }
  }
}
