/** What a usage report says, and what the call that it settles is charged. */
module ProviderBudgetUsage {
  import opened Tables
  import opened ProviderPricing
  import opened ProviderBudget
  import opened ProviderBudgetRecords

  // The names under which providers report a count, the preferred one first.
  const PROMPT_NAMES: seq<string> := ["prompt_tokens", "input_tokens"]
  const OUTPUT_NAMES: seq<string> := ["completion_tokens", "output_tokens"]
  const CACHED_NAMES: seq<string> := ["cached_tokens", "cache_read_input_tokens", "prompt_cache_hit_tokens"]

  /** The first of some names that the report has carries a value. */
  ghost predicate Says(usage: map<string, Value>, names: seq<string>, value: Value) {
    exists i | 0 <= i < |names| ::
      names[i] in usage && usage[names[i]] == value && forall j | 0 <= j < i :: names[j] !in usage
  }

  /** The number of cached tokens; the details are asked last, and no word of any means none. */
  ghost predicate SaysCached(usage: map<string, Value>, n: int) {
    || Says(usage, CACHED_NAMES, Num(n))
    || ((forall name | name in CACHED_NAMES :: name !in usage)
        && if "prompt_tokens_details" in usage && usage["prompt_tokens_details"].Object?
             && "cached_tokens" in usage["prompt_tokens_details"].fields
           then usage["prompt_tokens_details"].fields["cached_tokens"] == Num(n)
           else n == 0)
  }

  /** Tokens were written to a cache, which the prices do not cover. */
  predicate CreatesCache(usage: map<string, Value>) {
    "cache_creation_input_tokens" in usage
    && usage["cache_creation_input_tokens"]
         !in {Null, Flag(false), Num(0), Real(0.0), Text(""), Object(map[])}
  }

  lemma FirstOfTwo(usage: map<string, Value>, a: string, b: string, value: Value)
    requires value != Null
    ensures Says(usage, [a, b], value) <==> Lookup(usage, a, Lookup(usage, b, Null)) == value
  {
    assert [a, b][0] == a && [a, b][1] == b;
  }

  lemma FirstOfThree(usage: map<string, Value>, value: Value)
    ensures Says(usage, CACHED_NAMES, value) <==>
      (exists name | name in CACHED_NAMES :: name in usage)
      && Lookup(usage, "cached_tokens",
           Lookup(usage, "cache_read_input_tokens", Lookup(usage, "prompt_cache_hit_tokens", Null))) == value
  {
    assert CACHED_NAMES[0] == "cached_tokens" && CACHED_NAMES[1] == "cache_read_input_tokens"
      && CACHED_NAMES[2] == "prompt_cache_hit_tokens";
  }

  function CachedValue(usage: map<string, Value>): Value {
    var reported := Lookup(usage, "prompt_tokens_details", Null);
    var details := if reported.Object? then reported.fields else map[];
    Lookup(usage, "cached_tokens",
      Lookup(usage, "cache_read_input_tokens",
        Lookup(usage, "prompt_cache_hit_tokens", Lookup(details, "cached_tokens", Num(0)))))
  }

  lemma CachedIsSaid(usage: map<string, Value>, n: int)
    ensures SaysCached(usage, n) <==> CachedValue(usage) == Num(n)
  {
    FirstOfThree(usage, Num(n));
  }

  lemma CreationIsTruthy(usage: map<string, Value>)
    ensures CreatesCache(usage) <==> Lookup(usage, "cache_creation_input_tokens", Null).Truthy()
  {}

  /**
   A report is priced at certain counts if and only if it says each of them as a whole number under the
   first name it has for it, none is negative, no more is cached than prompted, and no cache was written.
   */
  lemma PricedExactly(usage: map<string, Value>, c: Counts)
    ensures Billable(usage) == Some(c) <==>
      && Says(usage, PROMPT_NAMES, Num(c.prompt)) && Says(usage, OUTPUT_NAMES, Num(c.output))
      && SaysCached(usage, c.cached)
      && 0 <= c.cached <= c.prompt && c.output >= 0 && !CreatesCache(usage)
  {
    FirstOfTwo(usage, "prompt_tokens", "input_tokens", Num(c.prompt));
    FirstOfTwo(usage, "completion_tokens", "output_tokens", Num(c.output));
    CachedIsSaid(usage, c.cached);
    CreationIsTruthy(usage);
    assert Billable(usage).Some? ==> CachedValue(usage) == Num(Billable(usage).value.cached);
  }

  // ---- what a settlement charges ----

  /** A call's prompt and output, token by token. */
  predicate IsBreakdown(tokens: seq<Token>, c: Counts) {
    Count(tokens, Fresh) == c.prompt - c.cached && Count(tokens, FromCache) == c.cached
    && Count(tokens, Written) == c.output
  }

  /**
   An open call is recorded at the sum of the rates of the tokens that its settlement reports, rounded
   up once, and is overrun exactly if that is more than was held; without a priceable report it is
   unknown and nothing is recorded.
   */
  lemma SettlementChargesTokens(db: Db, i: nat, payload: Settlement, c: Counts, tokens: seq<Token>)
    requires Open(db, i)
    ensures SettleRecord(db, db.calls[i], payload).Committed?
    ensures Billable(payload.usage) == Some(c) && IsBreakdown(tokens, c) ==>
      var settled := SettleRecord(db, db.calls[i], payload);
      && Recorded(settled.db.ledger, db.calls[i].id) == Money(Charge(db.calls[i].price, tokens))
      && settled.status
           == if Money(Charge(db.calls[i].price, tokens)) > db.calls[i].reserved then CallOverrun else CallSettled
    ensures Billable(payload.usage).None? ==>
      var settled := SettleRecord(db, db.calls[i], payload);
      settled.status == CallUnknown && settled.db.ledger == db.ledger
  {
    SettleRecordOfOpen(db, i, payload);
    if Billable(payload.usage) == Some(c) && IsBreakdown(tokens, c) {
      CostIsSumOfTokens(db.calls[i].price, tokens);
      assert CallAgrees(db.calls[i], db.ledger);
      CostIsNonNegative(db.calls[i].price, c);
      SettleKeeps(db, i, CostOf(db.calls[i].price, c), payload);
    }
  }
}
