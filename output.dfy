/**
 * The decisions `save_results` makes before writing anything
 * (indeed_scraper.py lines 666-710): nothing is saved for an empty result,
 * search terms are cut down to file-name-safe characters, and the CSV
 * header is the sorted union of the keys of all records.
 */
module Output {
  import opened Wrappers
  import opened Text
  import opened Config
  import opened Listing

  /** The characters a file name keeps: letters, digits, space, `-` and `_`. */
  predicate SafeChar(c: char) {
    IsAlnum(c) || c == ' ' || c == '-' || c == '_'
  }

  /** The generator inside `"".join(...)`: the safe characters of `s`, in order. */
  function SafeChars(s: string): (r: string)
    ensures |r| <= |s|
    ensures forall i :: 0 <= i < |r| ==> SafeChar(r[i])
  {
    if |s| == 0 then []
    else SafeChars(s[..|s| - 1]) + (if SafeChar(s[|s| - 1]) then [s[|s| - 1]] else [])
  }

  /** `safe_title` / `safe_location`: the safe characters, with trailing whitespace removed. */
  function Sanitize(s: string): string {
    RStrip(SafeChars(s))
  }

  /** Filtering distributes over concatenation. */
  lemma {:induction false} SafeCharsAppend(a: string, b: string)
    ensures SafeChars(a + b) == SafeChars(a) + SafeChars(b)
    decreases |b|
  {
    if |b| > 0 {
      var b' := b[..|b| - 1];
      assert (a + b)[..|a + b| - 1] == a + b';
      SafeCharsAppend(a, b');
    } else {
      assert a + b == a;
    }
  }

  /** Filtering keeps a string made of safe characters unchanged. */
  lemma {:induction false} SafeCharsKeepsSafe(s: string)
    requires forall i :: 0 <= i < |s| ==> SafeChar(s[i])
    ensures SafeChars(s) == s
    decreases |s|
  {
    if |s| > 0 {
      SafeCharsKeepsSafe(s[..|s| - 1]);
      assert s[..|s| - 1] + [s[|s| - 1]] == s;
    }
  }

  /** A character survives filtering exactly when it is safe. */
  lemma {:induction false} SafeCharsMembers(s: string, c: char)
    ensures c in SafeChars(s) <==> c in s && SafeChar(c)
    decreases |s|
  {
    if |s| > 0 {
      SafeCharsMembers(s[..|s| - 1], c);
      assert s == s[..|s| - 1] + [s[|s| - 1]];
    }
  }

  /**
   * A sanitised name holds only safe characters, each of which occurs in
   * the input, and does not end in a space; it is a prefix of the filtered
   * input, and what is cut off is spaces only.
   */
  lemma SanitizeMeans(s: string)
    ensures var r := Sanitize(s);
            && (forall i :: 0 <= i < |r| ==> SafeChar(r[i]) && r[i] in s)
            && (|r| > 0 ==> r[|r| - 1] != ' ')
            && r == SafeChars(s)[..|r|]
            && (forall i :: |r| <= i < |SafeChars(s)| ==> SafeChars(s)[i] == ' ')
  {
    var f := SafeChars(s);
    var r := Sanitize(s);
    forall i | 0 <= i < |r|
      ensures SafeChar(r[i]) && r[i] in s
    {
      assert r[i] == f[i];
      SafeCharsMembers(s, r[i]);
    }
    forall i | |r| <= i < |f|
      ensures f[i] == ' '
    {
      assert IsSpace(f[i]) && SafeChar(f[i]);
    }
  }

  /** Sanitising a sanitised name changes nothing. */
  lemma SanitizeIdempotent(s: string)
    ensures Sanitize(Sanitize(s)) == Sanitize(s)
  {
    var r := Sanitize(s);
    SanitizeMeans(s);
    SafeCharsKeepsSafe(r);
    assert |r| > 0 ==> !IsSpace(r[|r| - 1]);
  }

  /** Python's `<` on strings: code points compared left to right, a proper prefix first. */
  predicate StrLess(a: string, b: string)
    decreases |a|
  {
    |b| > 0 && (|a| == 0 || a[0] < b[0] || (a[0] == b[0] && StrLess(a[1..], b[1..])))
  }

  lemma {:induction false} StrLessIrreflexive(a: string)
    ensures !StrLess(a, a)
    decreases |a|
  {
    if |a| > 0 {
      StrLessIrreflexive(a[1..]);
    }
  }

  lemma {:induction false} StrLessTransitive(a: string, b: string, c: string)
    requires StrLess(a, b) && StrLess(b, c)
    ensures StrLess(a, c)
    decreases |a|
  {
    if |a| > 0 && a[0] == b[0] && b[0] == c[0] {
      StrLessTransitive(a[1..], b[1..], c[1..]);
    }
  }

  lemma {:induction false} StrLessTotal(a: string, b: string)
    ensures a == b || StrLess(a, b) || StrLess(b, a)
    decreases |a|
  {
    if |a| > 0 && |b| > 0 && a[0] == b[0] {
      StrLessTotal(a[1..], b[1..]);
      if a[1..] == b[1..] {
        assert a == [a[0]] + a[1..] && b == [b[0]] + b[1..];
      }
    }
  }

  /** Every name is before every later one: sorted and without repeats. */
  predicate StrictlySorted(r: seq<string>) {
    forall i, j :: 0 <= i < j < |r| ==> StrLess(r[i], r[j])
  }

  /** `x` added to a sorted list of distinct names, in its place; nothing when it is there already. */
  function Insert(r: seq<string>, x: string): (t: seq<string>)
    requires StrictlySorted(r)
    ensures StrictlySorted(t)
    ensures forall y :: y in t <==> y in r || y == x
  {
    if |r| == 0 then [x]
    else if x == r[0] then r
    else if StrLess(x, r[0]) then
      assert forall j :: 0 <= j < |r| ==> StrLess(x, r[j]) by {
        forall j | 0 <= j < |r| ensures StrLess(x, r[j]) {
          if j > 0 { StrLessTransitive(x, r[0], r[j]); }
        }
      }
      [x] + r
    else
      StrLessTotal(x, r[0]);
      var rest := Insert(r[1..], x);
      assert forall y :: y in rest ==> StrLess(r[0], y) by {
        forall y | y in rest ensures StrLess(r[0], y) {
          if y != x { assert y in r[1..]; }
        }
      }
      assert forall y :: y in r <==> y == r[0] || y in r[1..] by {
        assert r == [r[0]] + r[1..];
      }
      [r[0]] + rest
  }

  /** Two sorted lists of distinct names with the same members are the same list. */
  lemma {:induction false} SortedUnique(r: seq<string>, t: seq<string>)
    requires StrictlySorted(r) && StrictlySorted(t)
    requires forall y :: y in r <==> y in t
    ensures r == t
    decreases |r|
  {
    assert |r| > 0 ==> r[0] in r;
    assert |t| > 0 ==> t[0] in t;
    if |r| > 0 && |t| > 0 {
      // The least member heads both lists.
      if r[0] != t[0] {
        assert r[0] in t;
        assert t[0] in r;
        var i :| 0 <= i < |t| && t[i] == r[0];
        var j :| 0 <= j < |r| && r[j] == t[0];
        assert StrLess(t[0], r[0]);
        assert StrLess(r[0], t[0]);
        StrLessTransitive(r[0], t[0], r[0]);
        StrLessIrreflexive(r[0]);
      }
      forall y
        ensures y in r[1..] <==> y in t[1..]
      {
        assert r == [r[0]] + r[1..] && t == [t[0]] + t[1..];
        if y in r[1..] {
          var i :| 1 <= i < |r| && r[i] == y;
          assert StrLess(r[0], y);
          if y == t[0] { StrLessIrreflexive(y); }
          assert y in t;
        }
        if y in t[1..] {
          var i :| 1 <= i < |t| && t[i] == y;
          assert StrLess(t[0], y);
          if y == r[0] { StrLessIrreflexive(y); }
          assert y in r;
        }
      }
      SortedUnique(r[1..], t[1..]);
      assert r == [r[0]] + r[1..] && t == [t[0]] + t[1..];
    }
  }

  /** The column names of one record. */
  function NamesOf(job: Record): set<string> {
    set k | k in job :: KeyName(k)
  }

  /** `fieldnames` after the update loop has seen `jobs`. */
  function FieldSet(jobs: seq<Record>): set<string> {
    if |jobs| == 0 then {} else FieldSet(jobs[..|jobs| - 1]) + NamesOf(jobs[|jobs| - 1])
  }

  /** A name is a column of one record exactly when the record has a key of that name. */
  lemma NamesOfMeans(job: Record, n: string)
    ensures n in NamesOf(job) <==> exists k :: k in job && KeyName(k) == n
  {
  }

  /** A name is a column exactly when it is a column of some record. */
  lemma {:induction false} FieldSetMeans(jobs: seq<Record>, n: string)
    ensures n in FieldSet(jobs) <==> exists j :: 0 <= j < |jobs| && n in NamesOf(jobs[j])
    decreases |jobs|
  {
    if |jobs| > 0 {
      var init := jobs[..|jobs| - 1];
      FieldSetMeans(init, n);
      if n in FieldSet(init) {
        var j :| 0 <= j < |init| && n in NamesOf(init[j]);
        assert jobs[j] == init[j];
      }
      if exists j :: 0 <= j < |jobs| && n in NamesOf(jobs[j]) {
        var j :| 0 <= j < |jobs| && n in NamesOf(jobs[j]);
        if j < |init| {
          assert init[j] == jobs[j];
        }
      }
    }
  }

  /** Every key a record can hold. */
  const AllKeys: seq<Key> := [
    Title, Url, JobId, Company, Location, Salary, ScrapedAt, Source, ScraperMethod,
    PositionOnPage, PageNumber, CountryName,
    FullJobDescription, ProfileInsights, CompanySize, Benefits, JobRequirements
  ]

  lemma AllKeysComplete(k: Key)
    ensures k in AllKeys
  {
    match k
    case Title => assert AllKeys[0] == k;
    case Url => assert AllKeys[1] == k;
    case JobId => assert AllKeys[2] == k;
    case Company => assert AllKeys[3] == k;
    case Location => assert AllKeys[4] == k;
    case Salary => assert AllKeys[5] == k;
    case ScrapedAt => assert AllKeys[6] == k;
    case Source => assert AllKeys[7] == k;
    case ScraperMethod => assert AllKeys[8] == k;
    case PositionOnPage => assert AllKeys[9] == k;
    case PageNumber => assert AllKeys[10] == k;
    case CountryName => assert AllKeys[11] == k;
    case FullJobDescription => assert AllKeys[12] == k;
    case ProfileInsights => assert AllKeys[13] == k;
    case CompanySize => assert AllKeys[14] == k;
    case Benefits => assert AllKeys[15] == k;
    case JobRequirements => assert AllKeys[16] == k;
  }

  /** The names of the keys among the first `t` of `ks` that `job` holds. */
  ghost predicate NamesSoFar(names': seq<string>, names: seq<string>, job: Record, ks: seq<Key>, t: nat)
    requires t <= |ks|
  {
    forall n :: n in names' <==> n in names || exists u :: 0 <= u < t && ks[u] in job && KeyName(ks[u]) == n
  }

  /** Inserting the name of the next key the record holds extends the names seen so far by one key. */
  lemma NamesSoFarNext(names'': seq<string>, names': seq<string>, names: seq<string>, job: Record, ks: seq<Key>, t: nat)
    requires t < |ks| && NamesSoFar(names', names, job, ks, t)
    requires ks[t] in job ==> forall y :: y in names'' <==> y in names' || y == KeyName(ks[t])
    requires ks[t] !in job ==> names'' == names'
    ensures NamesSoFar(names'', names, job, ks, t + 1)
  {
    forall n | n in names''
      ensures n in names || exists u :: 0 <= u < t + 1 && ks[u] in job && KeyName(ks[u]) == n
    {
      if n !in names' {
        assert ks[t] in job && KeyName(ks[t]) == n;
      }
    }
    forall n | exists u :: 0 <= u < t + 1 && ks[u] in job && KeyName(ks[u]) == n
      ensures n in names''
    {
      var u :| 0 <= u < t + 1 && ks[u] in job && KeyName(ks[u]) == n;
      if u < t {
        assert n in names';
      }
    }
  }

  /** Over a list of every key, the names seen are those of the record. */
  lemma NamesSoFarAll(names': seq<string>, names: seq<string>, job: Record, ks: seq<Key>)
    requires forall k: Key :: k in ks
    requires NamesSoFar(names', names, job, ks, |ks|)
    ensures forall n :: n in names' <==> n in names || n in NamesOf(job)
  {
    forall n | n in NamesOf(job)
      ensures n in names'
    {
      var k :| k in job && KeyName(k) == n;
      assert k in ks;
      var u :| 0 <= u < |ks| && ks[u] == k;
    }
  }

  /** `fieldnames.update(job.keys())`, on the header kept sorted. */
  method AddNames(names: seq<string>, job: Record) returns (names': seq<string>)
    requires StrictlySorted(names)
    ensures StrictlySorted(names')
    ensures forall n :: n in names' <==> n in names || n in NamesOf(job)
  {
    names' := names;
    var t := 0;
    while t < |AllKeys|
      invariant 0 <= t <= |AllKeys|
      invariant StrictlySorted(names')
      invariant NamesSoFar(names', names, job, AllKeys, t)
    {
      var next := names';
      if AllKeys[t] in job {
        next := Insert(names', KeyName(AllKeys[t]));
      }
      NamesSoFarNext(next, names', names, job, AllKeys, t);
      names' := next;
      t := t + 1;
    }
    forall k: Key
      ensures k in AllKeys
    {
      AllKeysComplete(k);
    }
    NamesSoFarAll(names', names, job, AllKeys);
  }

  /**
   * `sorted(fieldnames)`: the key names of all records, each once, in
   * Python's string order.
   */
  method FieldNames(jobs: seq<Record>) returns (names: seq<string>)
    ensures StrictlySorted(names)
    ensures forall n :: n in names <==> n in FieldSet(jobs)
  {
    names := [];
    var i := 0;
    while i < |jobs|
      invariant 0 <= i <= |jobs|
      invariant StrictlySorted(names)
      invariant forall n :: n in names <==> n in FieldSet(jobs[..i])
    {
      assert jobs[..i + 1][..i] == jobs[..i];
      names := AddNames(names, jobs[i]);
      i := i + 1;
    }
    assert jobs[..i] == jobs;
  }

  /**
   * The header is exactly the column names of the records, sorted: it is
   * the one strictly sorted list with those members.
   */
  lemma HeaderIsSortedUnion(jobs: seq<Record>, names: seq<string>, other: seq<string>)
    requires StrictlySorted(names) && forall n :: n in names <==> n in FieldSet(jobs)
    requires StrictlySorted(other) && forall n :: n in other <==> n in FieldSet(jobs)
    ensures names == other
    ensures forall n :: n in names <==> exists j :: 0 <= j < |jobs| && n in NamesOf(jobs[j])
  {
    SortedUnique(names, other);
    forall n
      ensures n in names <==> exists j :: 0 <= j < |jobs| && n in NamesOf(jobs[j])
    {
      FieldSetMeans(jobs, n);
    }
  }

  /** What would be written: the file name stem and the CSV header. */
  datatype SavePlan = SavePlan(base: string, header: seq<string>)

  /**
   * `save_results` up to the file writes: no plan for an empty result;
   * otherwise the stem `indeed_<country>_<title>_<location>_<date>_<timestamp>`
   * over the sanitised search terms, and the header.
   */
  method SaveResults(site: Site, jobs: seq<Record>, jobTitle: string, location: string,
                     datePosted: string, timestamp: string) returns (plan: Option<SavePlan>)
    ensures plan.None? <==> |jobs| == 0
    ensures plan.Some? ==>
              && plan.value.base == "indeed_" + site.code + "_" + Sanitize(jobTitle) + "_"
                                    + Sanitize(location) + "_" + datePosted + "_" + timestamp
              && StrictlySorted(plan.value.header)
              && forall n :: n in plan.value.header <==> n in FieldSet(jobs)
  {
    if |jobs| == 0 {
      return None;
    }
    var safeTitle := Sanitize(jobTitle);
    var safeLocation := Sanitize(location);
    var base := "indeed_" + site.code + "_" + safeTitle + "_" + safeLocation + "_" + datePosted + "_" + timestamp;
    var header := FieldNames(jobs);
    return Some(SavePlan(base, header));
  }
}
