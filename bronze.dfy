/**
  The bronze snapshot writer. It checks the store connection, fetches the
  source data, stamps a key from two readings of the clock and writes the
  payload as one object, creating the bucket first when it is missing.
*/
module Bronze {
  import opened Text
  import opened Decimal
  import opened Wrappers
  import opened Store

  /** One reading of the wall clock, with the ranges `datetime` guarantees. */
  datatype Stamp = Stamp(year: int, month: int, day: int, hour: int, minute: int, second: int) {
    predicate Valid() {
      && 1 <= year <= 9999 && 1 <= month <= 12 && 1 <= day <= 31
      && 0 <= hour <= 23 && 0 <= minute <= 59 && 0 <= second <= 59
    }
  }

  /** `strftime("%Y%m%d")` */
  function DateToken(t: Stamp): (r: string)
    requires t.Valid()
    ensures |r| == 8 && AllDigits(r)
  {
    AllDigitsConcat(Pad(t.year, 4), Pad(t.month, 2));
    AllDigitsConcat(Pad(t.year, 4) + Pad(t.month, 2), Pad(t.day, 2));
    Pad(t.year, 4) + Pad(t.month, 2) + Pad(t.day, 2)
  }

  /** `strftime("%H%M%S")` */
  function ClockToken(t: Stamp): (r: string)
    requires t.Valid()
    ensures |r| == 6 && AllDigits(r)
  {
    AllDigitsConcat(Pad(t.hour, 2), Pad(t.minute, 2));
    AllDigitsConcat(Pad(t.hour, 2) + Pad(t.minute, 2), Pad(t.second, 2));
    Pad(t.hour, 2) + Pad(t.minute, 2) + Pad(t.second, 2)
  }

  /** `strftime("%Y%m%d_%H%M%S")`: eight digits of date, `_`, six digits of time. */
  function Timestamp(t: Stamp): (r: string)
    requires t.Valid()
    ensures |r| == 15 && r[8] == '_' && AllDigits(r[..8]) && AllDigits(r[9..])
    ensures Value(r[..8]) == t.year * 10000 + t.month * 100 + t.day
    ensures Value(r[9..]) == t.hour * 10000 + t.minute * 100 + t.second
  {
    var r := DateToken(t) + "_" + ClockToken(t);
    assert r[..8] == DateToken(t) && r[9..] == ClockToken(t);
    DateTokenValue(t);
    ClockTokenValue(t);
    r
  }

  /**
    `bronze/api/data=<today>/ibge-uf_<now>.json`, where `today` and `now` are
    two separate readings of the clock.
  */
  function ObjectName(today: Stamp, now: Stamp): (r: string)
    requires today.Valid() && now.Valid()
    ensures |r| == 53 && HasPrefix(r, "bronze/api/data=") && HasSuffix(r, ".json")
    ensures r[16..24] == DateToken(today) && r[24..33] == "/ibge-uf_" && r[33..48] == Timestamp(now)
  {
    var r := "bronze/api/data=" + DateToken(today) + "/ibge-uf_" + Timestamp(now) + ".json";
    assert r[..16] == "bronze/api/data=" && r[48..] == ".json";
    assert r[16..24] == DateToken(today) && r[24..33] == "/ibge-uf_" && r[33..48] == Timestamp(now);
    r
  }

  /** A date token reads back as the number `YYYYMMDD`. */
  lemma DateTokenValue(t: Stamp)
    requires t.Valid()
    ensures Value(DateToken(t)) == t.year * 10000 + t.month * 100 + t.day
  {
    var y, m, d := Pad(t.year, 4), Pad(t.month, 2), Pad(t.day, 2);
    PadValue(t.year, 4);
    PadValue(t.month, 2);
    PadValue(t.day, 2);
    assert Pow10(2) == 100 && Pow10(4) == 10000;
    ValueConcat(y, m);
    assert Value(y + m) == t.year * 100 + t.month;
    ValueConcat(y + m, d);
  }

  /** A clock token reads back as the number `HHMMSS`. */
  lemma ClockTokenValue(t: Stamp)
    requires t.Valid()
    ensures Value(ClockToken(t)) == t.hour * 10000 + t.minute * 100 + t.second
  {
    var h, m, s := Pad(t.hour, 2), Pad(t.minute, 2), Pad(t.second, 2);
    PadValue(t.hour, 2);
    PadValue(t.minute, 2);
    PadValue(t.second, 2);
    assert Pow10(2) == 100 && Pow10(4) == 10000;
    ValueConcat(h, m);
    assert Value(h + m) == t.hour * 100 + t.minute;
    ValueConcat(h + m, s);
  }

  /** Calendar order of the date part of two readings. */
  predicate SameDayOrEarlier(a: Stamp, b: Stamp) {
    a.year < b.year
    || (a.year == b.year && (a.month < b.month || (a.month == b.month && a.day <= b.day)))
  }

  /** Ordering date tokens as strings orders the days they name. */
  lemma DateTokenOrderIsCalendarOrder(a: Stamp, b: Stamp)
    requires a.Valid() && b.Valid()
    ensures LexLe(DateToken(a), DateToken(b)) <==> SameDayOrEarlier(a, b)
  {
    LexOrderIsNumericOrder(DateToken(a), DateToken(b));
    DateTokenValue(a);
    DateTokenValue(b);
  }

  /**
    The exact shape of a bronze key: marker, eight digits for today, the
    file stem, eight digits, `_`, six digits and `.json`, each field
    decoding to the clock reading it came from.
  */
  lemma ObjectNameShape(today: Stamp, now: Stamp)
    requires today.Valid() && now.Valid()
    ensures var n := ObjectName(today, now);
      && |n| == 53
      && n[..16] == "bronze/api/data=" && AllDigits(n[16..24]) && n[24..33] == "/ibge-uf_"
      && AllDigits(n[33..41]) && n[41] == '_' && AllDigits(n[42..48]) && n[48..] == ".json"
      && Value(n[16..24]) == today.year * 10000 + today.month * 100 + today.day
      && Value(n[33..41]) == now.year * 10000 + now.month * 100 + now.day
      && Value(n[42..48]) == now.hour * 10000 + now.minute * 100 + now.second
  {
    var n := ObjectName(today, now);
    var d, e, c := DateToken(today), DateToken(now), ClockToken(now);
    assert n == "bronze/api/data=" + d + "/ibge-uf_" + e + "_" + c + ".json";
    assert n[16..24] == d;
    assert n[33..41] == e;
    assert n[42..48] == c;
    DateTokenValue(today);
    DateTokenValue(now);
    ClockTokenValue(now);
  }

  /**
    The two readings are taken one after the other, so the folder date and
    the date inside the timestamp can differ: one reading just before
    midnight and the next just after it.
  */
  lemma FolderDateMayDifferFromTimestamp()
    ensures var today, now := Stamp(2025, 1, 1, 23, 59, 59), Stamp(2025, 1, 2, 0, 0, 0);
      ObjectName(today, now)[16..24] != ObjectName(today, now)[33..41]
  {
    var today, now := Stamp(2025, 1, 1, 23, 59, 59), Stamp(2025, 1, 2, 0, 0, 0);
    ObjectNameShape(today, now);
  }

  const BucketName: string := "datalake"
  const JsonContentType: string := "application/json"

  /**
    What the HTTP GET gives: no response at all, or a status code with the
    body re-serialised as UTF-8 JSON bytes when it parses as JSON.
  */
  datatype ApiReply = Unreachable | Response(status: int, payload: Option<Bytes>)

  /** `raise_for_status` raises for client and server error codes. */
  predicate RaisesForStatus(status: int)
    ensures RaisesForStatus(status) <==> status / 100 == 4 || status / 100 == 5
  {
    400 <= status < 600
  }

  /** The source API, fixed to one reply; it counts the requests made to it. */
  class SourceApi {
    const reply: ApiReply
    var requests: nat

    constructor (reply: ApiReply)
      ensures this.reply == reply && requests == 0
    {
      this.reply, requests := reply, 0;
    }

    method Get() returns (r: ApiReply)
      modifies this
      ensures r == reply && requests == old(requests) + 1
    {
      r, requests := reply, requests + 1;
    }
  }

  /** The payload a reply yields, or None when the writer must give up. */
  function Payload(reply: ApiReply): (r: Option<Bytes>)
    ensures r.Some? ==> reply.Response? && !(400 <= reply.status < 600) && reply.payload == r
    ensures reply.Response? && 200 <= reply.status < 300 ==> r == reply.payload
  {
    match reply
    case Unreachable => None
    case Response(status, payload) => if RaisesForStatus(status) then None else payload
  }

  datatype WriterOutcome =
    | NotConnected          // the store's sanity check failed
    | SourceFailed          // the request, the status check or the JSON decoding failed
    | StoreFailed(key: string)   // a bucket call or the put failed; reported and swallowed
    | Saved(key: string)

  /** The calls a run makes after a good fetch, when every store call succeeds. */
  function WriteCalls(present: bool, key: string, length: nat): seq<Call> {
    [BucketExists(BucketName)]
    + (if present then [] else [MakeBucket(BucketName)])
    + [PutObject(ObjectKey(BucketName, key), length, JsonContentType)]
  }

  /**
    The storage step of the writer: create the bucket when it is missing,
    then put `bytes` under `key` as JSON. Any failing call ends the step.
  */
  method SaveSnapshot(store: ObjectStore, key: string, bytes: Bytes) returns (ok: bool)
    requires store.Valid()
    modifies store
    ensures store.Valid()
    ensures ok <==>
              && store.online && !store.adminFails && (BucketName in old(store.buckets) || !store.makeBucketFails)
              && ObjectKey(BucketName, key) !in store.refused
    ensures ok ==> store.objects == old(store.objects)[ObjectKey(BucketName, key) := StoredObject(bytes, JsonContentType)]
    ensures !ok ==> store.objects == old(store.objects)
    ensures !(store.online && !store.adminFails) ==>
              store.buckets == old(store.buckets) && store.log == old(store.log) + [BucketExists(BucketName)]
    ensures store.online && !store.adminFails && BucketName !in old(store.buckets) && store.makeBucketFails ==>
              store.buckets == old(store.buckets)
              && store.log == old(store.log) + [BucketExists(BucketName), MakeBucket(BucketName)]
    ensures store.online && !store.adminFails && (BucketName in old(store.buckets) || !store.makeBucketFails) ==>
              && store.buckets == old(store.buckets) + {BucketName}
              && store.log == old(store.log) + WriteCalls(BucketName in old(store.buckets), key, |bytes|)
  {
    var reached, present := store.BucketExists(BucketName);
    if !reached {
      return false;
    }
    if !present {
      ok := store.MakeBucket(BucketName);
      if !ok {
        return;
      }
    }
    ok := store.PutObject(BucketName, key, bytes, |bytes|, JsonContentType);
    assert bytes[..|bytes|] == bytes;
  }

  /** The writer job (`main` of the bronze script). */
  method Run(store: ObjectStore, api: SourceApi, today: Stamp, now: Stamp) returns (outcome: WriterOutcome)
    requires store.Valid() && today.Valid() && now.Valid()
    modifies store, api
    ensures store.Valid()
    ensures outcome.NotConnected? <==> !store.online
    ensures outcome.NotConnected? ==>
              api.requests == old(api.requests) && store.log == old(store.log) + [ListBuckets]
    ensures !outcome.NotConnected? ==> api.requests == old(api.requests) + 1
    ensures outcome.SourceFailed? <==> store.online && Payload(api.reply).None?
    ensures outcome.NotConnected? || outcome.SourceFailed? ==>
              store.log == old(store.log) + [ListBuckets] && store.buckets == old(store.buckets)
    ensures outcome.StoreFailed? || outcome.Saved? ==> outcome.key == ObjectName(today, now)
    ensures !outcome.Saved? ==> store.objects == old(store.objects)
    ensures outcome.Saved? ==>
              && store.objects == old(store.objects)[ObjectKey(BucketName, outcome.key) :=
                                   StoredObject(Payload(api.reply).value, JsonContentType)]
              && store.buckets == old(store.buckets) + {BucketName}
              && store.log == old(store.log) + [ListBuckets]
                 + WriteCalls(BucketName in old(store.buckets), outcome.key, |Payload(api.reply).value|)
    ensures outcome.Saved? <==>
              && store.online && Payload(api.reply).Some? && !store.adminFails
              && (BucketName in old(store.buckets) || !store.makeBucketFails)
              && ObjectKey(BucketName, ObjectName(today, now)) !in store.refused
    ensures outcome.StoreFailed? ==>
              || (&& store.adminFails && store.buckets == old(store.buckets)
                  && store.log == old(store.log) + [ListBuckets, BucketExists(BucketName)])
              || (&& !store.adminFails && BucketName !in old(store.buckets) && store.makeBucketFails
                  && store.buckets == old(store.buckets)
                  && store.log == old(store.log) + [ListBuckets, BucketExists(BucketName), MakeBucket(BucketName)])
              || (&& !store.adminFails && store.buckets == old(store.buckets) + {BucketName}
                  && ObjectKey(BucketName, outcome.key) in store.refused
                  && store.log == old(store.log) + [ListBuckets]
                     + WriteCalls(BucketName in old(store.buckets), outcome.key, |Payload(api.reply).value|))
  {
    // connect and check
    var connected := store.ListBuckets();
    if !connected {
      return NotConnected;
    }

    // 1) fetch the source data
    var reply := api.Get();
    var payload := Payload(reply);
    if payload.None? {
      return SourceFailed;
    }

    // 2) folder and file names, from two readings of the clock
    var key := ObjectName(today, now);

    // 3) make sure the bucket exists, then write the one object
    var saved := SaveSnapshot(store, key, payload.value);
    if !saved {
      return StoreFailed(key);
    }
    return Saved(key);
  }
}
