/** What the resolver returns on small concrete listings. */
module Scenarios {
  import opened Text
  import opened Wrappers
  import Resolver

  const Day1Json: string := "bronze/api/data=20250101/ibge-uf_20250101_120000.json"
  const Day1Copy: string := "bronze/api/data=20250101/ibge-uf_20250101_130000.JSON"
  const Day2Notes: string := "bronze/api/data=20250102/notes.txt"

  /** Two date folders; the newer one holds no `.json` object. */
  function StaleListing(prefix: string): seq<Resolver.Entry> {
    if prefix == Resolver.BronzePrefix then
      [Resolver.Entry("bronze/api/data=20250101/", 0), Resolver.Entry("bronze/api/data=20250102/", 0)]
    else if prefix == Resolver.FolderPrefix("20250101") then
      [Resolver.Entry(Day1Json, 7)]
    else if prefix == Resolver.FolderPrefix("20250102") then
      [Resolver.Entry(Day2Notes, 9)]
    else []
  }

  /** One date folder holding two `.json` objects with the same last-modified time. */
  function TiedListing(prefix: string): seq<Resolver.Entry> {
    if prefix == Resolver.BronzePrefix then
      [Resolver.Entry("bronze/api/data=20250101/", 0)]
    else if prefix == Resolver.FolderPrefix("20250101") then
      [Resolver.Entry(Day1Json, 7), Resolver.Entry(Day1Copy, 7)]
    else []
  }

  /** A folder name with a ninth digit still matches; its token is the first eight digits. */
  lemma NineDigitFolderMatches()
    ensures Resolver.MatchDate("bronze/api/data=202501019/x.json") == Some("20250101")
  {
    Resolver.MatchDateComplete("bronze/api/data=202501019/x.json", "20250101");
  }

  lemma StaleTokens()
    ensures Resolver.Tokens(StaleListing(Resolver.BronzePrefix)) == {"20250101", "20250102"}
  {
    var top := StaleListing(Resolver.BronzePrefix);
    Resolver.MatchDateComplete(top[0].name, "20250101");
    Resolver.MatchDateComplete(top[1].name, "20250102");
  }

  lemma SecondDayIsGreatest()
    ensures Resolver.IsGreatest("20250102", {"20250101", "20250102"})
  {
    LexLeSharedPrefix("2025010", "1", "2");
    assert "2025010" + "1" == "20250101" && "2025010" + "2" == "20250102";
    LexLeReflexive("20250102");
  }

  lemma NotesAreNotJson()
    ensures !Resolver.HasJson(StaleListing(Resolver.FolderPrefix("20250102")))
  {
    assert Resolver.FolderPrefix("20250102") != Resolver.BronzePrefix;
    assert Resolver.FolderPrefix("20250102")[23] != Resolver.FolderPrefix("20250101")[23];
    assert StaleListing(Resolver.FolderPrefix("20250102")) == [Resolver.Entry(Day2Notes, 9)];
    assert Lower(Day2Notes)[|Day2Notes| - 1] == 't';
  }

  /** The resolver fails on the newest folder even though an older folder holds a snapshot. */
  method NewestFolderWithoutJson() returns (r: Result<string, Resolver.ResolveError>)
    ensures r == Failure(Resolver.NoJsonFile("20250102"))
  {
    var tokens := Resolver.Tokens(StaleListing(Resolver.BronzePrefix));
    StaleTokens();
    SecondDayIsGreatest();
    NotesAreNotJson();
    r := Resolver.FindLatestJson(StaleListing);
    assert r.Failure? by {
      assert Resolver.IsGreatest("20250102", tokens);
    }
    assert r.error != Resolver.NoDateFolder;
    Resolver.GreatestIsUnique(r.error.date, "20250102", tokens);
  }

  lemma TiedTokens()
    ensures Resolver.Tokens(TiedListing(Resolver.BronzePrefix)) == {"20250101"}
    ensures Resolver.IsGreatest("20250101", {"20250101"})
  {
    Resolver.MatchDateComplete(TiedListing(Resolver.BronzePrefix)[0].name, "20250101");
    LexLeReflexive("20250101");
  }

  lemma TiedFolderPicksFirst()
    ensures Resolver.IsFirstLatest(TiedListing(Resolver.FolderPrefix("20250101")), 0)
    ensures TiedListing(Resolver.FolderPrefix("20250101"))[0].name == Day1Json
  {
    assert Resolver.FolderPrefix("20250101") != Resolver.BronzePrefix;
    assert Resolver.IsJsonName(Day1Json) by {
      assert Lower(Day1Json)[|Day1Json| - 5..] == ".json";
    }
  }

  /** On a tie of last-modified times the first `.json` object in listing order is chosen. */
  method TieGoesToFirstListed() returns (r: Result<string, Resolver.ResolveError>)
    ensures r == Success(Day1Json)
  {
    var tokens := Resolver.Tokens(TiedListing(Resolver.BronzePrefix));
    var folder := TiedListing(Resolver.FolderPrefix("20250101"));
    TiedTokens();
    TiedFolderPicksFirst();
    r := Resolver.FindLatestJson(TiedListing);
    assert Resolver.HasJson(folder);
    var d, i :| Resolver.IsGreatest(d, tokens)
                && Resolver.IsFirstLatest(TiedListing(Resolver.FolderPrefix(d)), i)
                && TiedListing(Resolver.FolderPrefix(d))[i].name == r.value;
    Resolver.GreatestIsUnique(d, "20250101", tokens);
    Resolver.FirstLatestIsUnique(folder, i, 0);
  }
}
