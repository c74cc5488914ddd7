/** The receipt store of the server's main package: the process-wide map from
    receipt id to points, written by the receipt-processing handler and read by
    the points handler. HTTP routing and response writing are not modelled;
    the JSON decoder and the name-based SHA-1 UUID are opaque, deterministic
    functions of the request body. */
module Store {
  import opened Results
  import opened Receipts

  newtype byte = x: int | 0 <= x < 256

  /** A raw request body. */
  type Body = seq<byte>

  /** What one POST of a receipt body leads to. A scoring panic ends the
      request before the store is written and before any id is sent back. */
  datatype PostOutcome =
    | Stored(id: string)
    | ParseFailed
    | ScoringPanicked(cause: Panic)

  datatype PostResult = PostResult(db: map<string, int>, outcome: PostOutcome)

  /** The effect of one POST on the store: parse the body, derive the id from
      the raw bytes, score, then overwrite the entry for that id. */
  function PostStep(db: map<string, int>, parse: Body -> Option<Receipt>,
                    idOf: Body -> string, body: Body): (res: PostResult)
    ensures res.outcome.Stored? <==> parse(body).Some? && Points(parse(body).value).Ok?
    ensures res.outcome == ParseFailed <==> parse(body).None?
    ensures !res.outcome.Stored? ==> res.db == db
    ensures res.outcome.Stored? ==>
      res.outcome.id == idOf(body)
      && res.db.Keys == db.Keys + {idOf(body)}
      && res.db[idOf(body)] == Points(parse(body).value).value
    ensures forall k :: k in db && k != idOf(body) ==> k in res.db && res.db[k] == db[k]
    ensures forall k :: k in res.db && k != idOf(body) ==> k in db
  {
    match parse(body)
    case None => PostResult(db, ParseFailed)
    case Some(receipt) =>
      var id := idOf(body);
      match Points(receipt)
      case Fail(cause) => PostResult(db, ScoringPanicked(cause))
      case Ok(points) => PostResult(db[id := points], Stored(id))
  }

  /** Looking up an id: its points when present, nothing otherwise. */
  function Lookup(db: map<string, int>, id: string): (r: Option<int>)
    ensures r.Some? <==> id in db
    ensures r.Some? ==> r.value == db[id]
  {
    if id in db then Some(db[id]) else None
  }

  /** Posting the same body twice leaves the store as posting it once, and the
      second post reports what the first did. */
  lemma {:induction false} PostIdempotent(db: map<string, int>, parse: Body -> Option<Receipt>,
                                          idOf: Body -> string, body: Body)
    ensures PostStep(PostStep(db, parse, idOf, body).db, parse, idOf, body)
         == PostStep(db, parse, idOf, body)
  {
    var once := PostStep(db, parse, idOf, body);
    if once.outcome.Stored? {
      var id := idOf(body);
      var p := Points(parse(body).value).value;
      assert once.db == db[id := p];
      assert once.db[id := p] == once.db;
    }
  }

  /** After a post that stored an id, looking that id up gives the points of
      the parsed receipt. */
  lemma PostThenLookup(db: map<string, int>, parse: Body -> Option<Receipt>,
                       idOf: Body -> string, body: Body)
    requires PostStep(db, parse, idOf, body).outcome.Stored?
    ensures Lookup(PostStep(db, parse, idOf, body).db, idOf(body))
         == Some(Points(parse(body).value).value)
  {
  }

  /** A post never changes what any other id looks up to. */
  lemma PostPreservesOtherLookups(db: map<string, int>, parse: Body -> Option<Receipt>,
                                  idOf: Body -> string, body: Body, other: string)
    requires other != idOf(body)
    ensures Lookup(PostStep(db, parse, idOf, body).db, other) == Lookup(db, other)
  {
  }

  /** The outcome depends on the raw body alone: two posts of equal bodies
      report the same outcome (the same id when they store), whatever the
      store held before each. */
  lemma IdsFollowBodies(db1: map<string, int>, db2: map<string, int>,
                        parse: Body -> Option<Receipt>, idOf: Body -> string, b1: Body, b2: Body)
    requires b1 == b2
    ensures PostStep(db2, parse, idOf, b2).outcome == PostStep(db1, parse, idOf, b1).outcome
  {
  }

  /** The server process: its decoder, its id function and its store. */
  class ReceiptStore {
    const parse: Body -> Option<Receipt>
    const idOf: Body -> string
    var db: map<string, int>

    /** The store is created empty when the process starts. */
    constructor (parse: Body -> Option<Receipt>, idOf: Body -> string)
      ensures this.parse == parse && this.idOf == idOf
      ensures db == map[]
    {
      this.parse := parse;
      this.idOf := idOf;
      db := map[];
    }

    /** The store logic of the receipt-processing handler. */
    method Post(body: Body) returns (outcome: PostOutcome)
      modifies this
      ensures PostResult(db, outcome) == PostStep(old(db), parse, idOf, body)
      ensures parse(body).None? ==> outcome == ParseFailed && db == old(db)
      ensures parse(body).Some? && Points(parse(body).value).Fail? ==>
        outcome == ScoringPanicked(Points(parse(body).value).panic) && db == old(db)
      ensures parse(body).Some? && Points(parse(body).value).Ok? ==>
        outcome == Stored(idOf(body)) && db == old(db)[idOf(body) := Points(parse(body).value).value]
    {
      var parsed := parse(body);
      if parsed.None? {
        return ParseFailed;
      }
      var id := idOf(body);
      var points := Points(parsed.value);
      if points.Fail? {
        return ScoringPanicked(points.panic);
      }
      db := db[id := points.value];
      outcome := Stored(id);
    }

    /** The store logic of the points handler: a hit or a miss. */
    method Get(id: string) returns (points: Option<int>)
      ensures points.Some? <==> id in db
      ensures points.Some? ==> points.value == db[id]
    {
      if id in db {
        points := Some(db[id]);
      } else {
        points := None;
      }
    }
  }

  /** On a freshly started server, a post followed by a get of the body's id
      yields the receipt's points when the post stored them, and a miss when
      parsing failed or scoring panicked. */
  method PostThenGet(parse: Body -> Option<Receipt>, idOf: Body -> string, body: Body)
    returns (stored: PostOutcome, found: Option<int>)
    ensures stored.Stored? <==> parse(body).Some? && Points(parse(body).value).Ok?
    ensures stored.Stored? ==> found == Some(Points(parse(body).value).value)
    ensures !stored.Stored? ==> found == None
  {
    var server := new ReceiptStore(parse, idOf);
    stored := server.Post(body);
    found := server.Get(idOf(body));
  }
}
