/**
  The latest-snapshot resolver of the silver job (`find_latest_json`). It
  lists the bronze namespace without recursion, collects the 8-digit date
  tokens of the `data=YYYYMMDD` folders, takes the greatest token, lists that
  folder and returns the name of the `.json` object with the greatest
  last-modified time, the first such object in listing order on a tie.
*/
module Resolver {
  import opened Text
  import opened Wrappers

  /** One entry of a store listing. */
  datatype Entry = Entry(name: string, lastModified: int)

  /**
    The store's non-recursive listing: the entries under a prefix, in the order
    the store returns them.
  */
  type Lister = string -> seq<Entry>

  datatype ResolveError =
    | NoDateFolder               // no `data=YYYYMMDD` folder under the bronze prefix
    | NoJsonFile(date: string)   // the newest folder holds no `.json` object

  const BronzePrefix: string := "bronze/api/"

  /** The literal part of the pattern `^bronze/api/data=(\d{8})/?`. */
  const DateMarker: string := "bronze/api/data="

  /** The folder listed for a date token: `bronze/api/data=<token>/`. */
  function FolderPrefix(token: string): string {
    BronzePrefix + "data=" + token + "/"
  }

  /**
    `re.match(r"^bronze/api/data=(\d{8})/?", name)` and its group 1. The
    trailing slash is optional, so it never decides whether a name matches.
  */
  function MatchDate(name: string): (r: Option<string>)
    ensures r.Some? ==> |r.value| == 8 && AllDigits(r.value) && HasPrefix(name, DateMarker + r.value)
  {
    if |name| >= |DateMarker| + 8 && HasPrefix(name, DateMarker) && AllDigits(name[|DateMarker|..|DateMarker| + 8])
    then
      assert name[..|DateMarker| + 8] == DateMarker + name[|DateMarker|..|DateMarker| + 8];
      Some(name[|DateMarker|..|DateMarker| + 8])
    else None
  }

  /**
    Every name that starts with the marker and eight digits matches, and the
    captured token is those eight digits, whatever follows them.
  */
  lemma MatchDateComplete(name: string, token: string)
    requires |token| == 8 && AllDigits(token) && HasPrefix(name, DateMarker + token)
    ensures MatchDate(name) == Some(token)
  {
    assert name[..|DateMarker|] == (DateMarker + token)[..|DateMarker|];
    assert name[|DateMarker|..|DateMarker| + 8] == (DateMarker + token)[|DateMarker|..];
  }

  /** `name.lower().endswith(".json")` */
  predicate IsJsonName(name: string) {
    HasSuffix(Lower(name), ".json")
  }

  /** Only the last five characters of a name decide whether it counts as `.json`. */
  lemma JsonTestReadsSuffix(name: string)
    ensures IsJsonName(name) <==> |name| >= 5 && Lower(name[|name| - 5..]) == ".json"
  {
    if |name| >= 5 {
      assert Lower(name)[|name| - 5..] == Lower(name[|name| - 5..]);
    }
  }

  /** The date tokens captured from a listing. */
  function Tokens(entries: seq<Entry>): set<string> {
    set i | 0 <= i < |entries| && MatchDate(entries[i].name).Some? :: MatchDate(entries[i].name).value
  }

  /** `d` is the greatest of `tokens` in Python's string order. */
  predicate IsGreatest(d: string, tokens: set<string>) {
    d in tokens && forall t :: t in tokens ==> LexLe(t, d)
  }

  predicate HasJson(entries: seq<Entry>) {
    exists i :: 0 <= i < |entries| && IsJsonName(entries[i].name)
  }

  /**
    Entry `i` is a `.json` entry whose last-modified time no other `.json`
    entry exceeds, and every earlier `.json` entry is strictly older.
  */
  predicate IsFirstLatest(entries: seq<Entry>, i: int) {
    && 0 <= i < |entries|
    && IsJsonName(entries[i].name)
    && (forall j :: 0 <= j < |entries| && IsJsonName(entries[j].name) ==>
          entries[j].lastModified <= entries[i].lastModified)
    && (forall j :: 0 <= j < i && IsJsonName(entries[j].name) ==>
          entries[j].lastModified < entries[i].lastModified)
  }

  /** `name` is the object the two-level selection designates. */
  ghost predicate Resolves(lister: Lister, name: string) {
    exists d, i :: IsGreatest(d, Tokens(lister(BronzePrefix)))
                   && IsFirstLatest(lister(FolderPrefix(d)), i)
                   && lister(FolderPrefix(d))[i].name == name
  }

  lemma GreatestIsUnique(d: string, e: string, tokens: set<string>)
    requires IsGreatest(d, tokens) && IsGreatest(e, tokens)
    ensures d == e
  {
    LexLeAntisymmetric(d, e);
  }

  lemma FirstLatestIsUnique(entries: seq<Entry>, i: int, k: int)
    requires IsFirstLatest(entries, i) && IsFirstLatest(entries, k)
    ensures i == k
  {
  }

  /** The selection designates at most one object. */
  lemma ResolutionIsUnique(lister: Lister, n1: string, n2: string)
    requires Resolves(lister, n1) && Resolves(lister, n2)
    ensures n1 == n2
  {
    var d1, i1 :| IsGreatest(d1, Tokens(lister(BronzePrefix)))
                  && IsFirstLatest(lister(FolderPrefix(d1)), i1) && lister(FolderPrefix(d1))[i1].name == n1;
    var d2, i2 :| IsGreatest(d2, Tokens(lister(BronzePrefix)))
                  && IsFirstLatest(lister(FolderPrefix(d2)), i2) && lister(FolderPrefix(d2))[i2].name == n2;
    GreatestIsUnique(d1, d2, Tokens(lister(BronzePrefix)));
    FirstLatestIsUnique(lister(FolderPrefix(d1)), i1, i2);
  }

  /** The store lists under a prefix only names that start with it. */
  ghost predicate ListingRespectsPrefix(lister: Lister) {
    forall p, i :: 0 <= i < |lister(p)| ==> HasPrefix(lister(p)[i].name, p)
  }

  /**
    The designated object sits in the folder of the newest date: its own date
    token is at least every token present, and it is a `.json` object.
  */
  lemma ResolvedFromNewestFolder(lister: Lister, name: string)
    requires ListingRespectsPrefix(lister) && Resolves(lister, name)
    ensures IsJsonName(name)
    ensures MatchDate(name).Some? && IsGreatest(MatchDate(name).value, Tokens(lister(BronzePrefix)))
  {
    var tokens := Tokens(lister(BronzePrefix));
    var d, i :| IsGreatest(d, tokens) && IsFirstLatest(lister(FolderPrefix(d)), i)
                && lister(FolderPrefix(d))[i].name == name;
    assert HasPrefix(name, FolderPrefix(d));
    TokenShape(lister(BronzePrefix), d);
    FolderNamesCarryToken(name, d);
  }

  /** Every name listed under the folder prefix of a date token matches the pattern with that token. */
  lemma FolderNamesCarryToken(name: string, token: string)
    requires |token| == 8 && AllDigits(token) && HasPrefix(name, FolderPrefix(token))
    ensures MatchDate(name) == Some(token)
  {
    assert FolderPrefix(token) == (DateMarker + token) + "/";
    PrefixOfPrefix(name, DateMarker + token, "/");
    MatchDateComplete(name, token);
  }

  lemma TokenShape(entries: seq<Entry>, d: string)
    requires d in Tokens(entries)
    ensures |d| == 8 && AllDigits(d)
  {
  }

  /** `max(dates)` */
  method MaxToken(dates: set<string>) returns (m: string)
    requires dates != {}
    ensures IsGreatest(m, dates)
  {
    m :| m in dates;
    var rest := dates - {m};
    LexLeReflexive(m);
    while rest != {}
      invariant rest <= dates && m in dates
      invariant forall t :: t in dates && t !in rest ==> LexLe(t, m)
      decreases |rest|
    {
      var t :| t in rest;
      if !LexLe(t, m) {
        LexLeTotal(t, m);
        forall u | u in dates && u !in rest ensures LexLe(u, t) {
          LexLeTransitive(u, m, t);
        }
        LexLeReflexive(t);
        m := t;
      }
      rest := rest - {t};
    }
  }

  /** The first loop of `find_latest_json`: the date token of every matching name. */
  method CollectTokens(top: seq<Entry>) returns (dates: set<string>)
    ensures dates == Tokens(top)
  {
    dates := {};
    for i := 0 to |top|
      invariant dates == Tokens(top[..i])
    {
      var m := MatchDate(top[i].name);
      if m.Some? {
        dates := dates + {m.value};
      }
      assert Tokens(top[..i + 1]) == Tokens(top[..i]) + (if m.Some? then {m.value} else {}) by {
        assert forall k :: 0 <= k < i ==> top[..i + 1][k] == top[..i][k];
      }
    }
    assert top[..|top|] == top;
  }

  /**
    The second loop of `find_latest_json`: the `.json` entry with the
    greatest last-modified time, the first of them on a tie.
  */
  method LatestJson(folder: seq<Entry>) returns (latest: Option<Entry>, ghost at: int)
    ensures latest.None? <==> !HasJson(folder)
    ensures latest.Some? ==> IsFirstLatest(folder, at) && latest.value == folder[at]
  {
    latest, at := None, -1;
    for j := 0 to |folder|
      invariant latest.None? <==> !HasJson(folder[..j])
      invariant latest.Some? ==> IsFirstLatest(folder[..j], at) && latest.value == folder[at]
    {
      if IsJsonName(folder[j].name) {
        if latest.None? || folder[j].lastModified > latest.value.lastModified {
          latest := Some(folder[j]);
          at := j;
        }
      }
      assert forall k :: 0 <= k < j ==> folder[..j + 1][k] == folder[..j][k];
      assert folder[..j + 1][j] == folder[j];
    }
    assert folder[..|folder|] == folder;
  }

  /** `find_latest_json` */
  method FindLatestJson(lister: Lister) returns (r: Result<string, ResolveError>)
    ensures r == Failure(NoDateFolder) <==> Tokens(lister(BronzePrefix)) == {}
    ensures r.Failure? && r.error.NoJsonFile? ==>
              IsGreatest(r.error.date, Tokens(lister(BronzePrefix)))
              && !HasJson(lister(FolderPrefix(r.error.date)))
    ensures r.Success? ==> Resolves(lister, r.value)
    ensures forall d :: IsGreatest(d, Tokens(lister(BronzePrefix))) ==>
              (r.Success? <==> HasJson(lister(FolderPrefix(d))))
  {
    var top := lister(BronzePrefix);
    var dates := CollectTokens(top);
    if dates == {} {
      return Failure(NoDateFolder);
    }
    var maxDate := MaxToken(dates);
    var folder := lister(FolderPrefix(maxDate));
    var latest, at := LatestJson(folder);
    forall d | IsGreatest(d, dates) ensures d == maxDate {
      GreatestIsUnique(d, maxDate, dates);
    }
    if latest.None? {
      return Failure(NoJsonFile(maxDate));
    }
    return Success(latest.value.name);
  }
}
