/**
  How the two jobs fit together: every key the bronze writer produces is one
  the silver job's resolver recognises, in the folder it will list.
*/
module Interop {
  import opened Text
  import opened Wrappers
  import Bronze
  import Resolver

  /** Lower-casing leaves a name that already ends in lower-case `.json` ending in `.json`. */
  lemma LowerKeepsJsonSuffix(n: string)
    requires HasSuffix(n, ".json")
    ensures Resolver.IsJsonName(n)
  {
    var l := Lower(n);
    forall i | |n| - 5 <= i < |n| ensures l[i] == n[i] {
      assert n[i] == n[|n| - 5..][i - (|n| - 5)];
    }
    assert l[|l| - 5..] == n[|n| - 5..];
  }

  /**
    A key written by the bronze job matches the resolver's pattern with its
    folder date as the captured token, lies in the folder the resolver lists
    for that token, and counts as a `.json` object there. The folder entry a
    non-recursive listing of `bronze/api/` shows for it yields the same token.
  */
  lemma WriterKeysAreResolvable(today: Bronze.Stamp, now: Bronze.Stamp)
    requires today.Valid() && now.Valid()
    ensures var key, token := Bronze.ObjectName(today, now), Bronze.DateToken(today);
      && Resolver.MatchDate(key) == Some(token)
      && HasPrefix(key, Resolver.FolderPrefix(token))
      && Resolver.IsJsonName(key)
      && Resolver.MatchDate(Resolver.FolderPrefix(token)) == Some(token)
  {
    var key, token := Bronze.ObjectName(today, now), Bronze.DateToken(today);
    var folder := Resolver.FolderPrefix(token);
    assert folder == Resolver.DateMarker + token + "/";
    assert HasPrefix(key, folder) by {
      assert key[..16] == Resolver.DateMarker && key[16..24] == token && key[24] == '/';
      assert key[..|folder|] == key[..16] + key[16..24] + [key[24]];
    }
    Resolver.FolderNamesCarryToken(key, token);
    assert HasPrefix(folder, folder) by {
      assert folder[..|folder|] == folder;
    }
    Resolver.FolderNamesCarryToken(folder, token);
    assert HasSuffix(key, ".json");
    LowerKeepsJsonSuffix(key);
  }

  /**
    Of the folders two writer runs create, the resolver takes the one of the
    later day.
  */
  lemma LaterDayIsGreatest(a: Bronze.Stamp, b: Bronze.Stamp)
    requires a.Valid() && b.Valid() && Bronze.SameDayOrEarlier(a, b)
    ensures Resolver.IsGreatest(Bronze.DateToken(b), {Bronze.DateToken(a), Bronze.DateToken(b)})
  {
    Bronze.DateTokenOrderIsCalendarOrder(a, b);
    LexLeReflexive(Bronze.DateToken(b));
  }
}
