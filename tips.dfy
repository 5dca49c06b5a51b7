/** The tip selector of `agent/tools.py`: pick a health tip, optionally of one category,
    and append a usage record for it to the tip log. */
module Tips {
  import opened Wrappers
  import opened Text
  import CsvStore

  /** A tip is a Python dict with the keys "tip" and "category". */
  type Tip = map<string, string>

  /** One row of the tip log: `[timestamp, tip text, category]`. */
  datatype UsageRow = UsageRow(timestamp: string, text: string, category: string)

  /** The fixed tip table `tips_data`. */
  const TIPS_DATA: seq<Tip> := [
    map["tip" := "Drink at least 8 glasses of water daily to stay hydrated.", "category" := "Hydration"],
    map["tip" := "Include fruits and vegetables in every meal.", "category" := "Nutrition"],
    map["tip" := "Get at least 7-8 hours of sleep each night.", "category" := "Sleep"],
    map["tip" := "Take short walks after meals to aid digestion.", "category" := "Exercise"],
    map["tip" := "Practice mindfulness or meditation for 10 minutes daily.", "category" := "Mental Health"]
  ]

  /** Every entry of a table carries both keys, so `tip["category"]` cannot fail. */
  predicate WellFormed(table: seq<Tip>) {
    forall t | t in table :: "tip" in t && "category" in t
  }

  lemma TipsDataWellFormed()
    ensures WellFormed(TIPS_DATA) && |TIPS_DATA| == 5
  {
  }

  /** Python truthiness of the `category` argument: `None` and `""` are false. */
  predicate Truthy(category: Option<string>) {
    category.Some? && category.value != ""
  }

  /** `tip["category"].lower() == category.lower()`: whole-label equality after lowering. */
  predicate SameCategory(t: Tip, category: string)
    requires "category" in t
  {
    Lower(t["category"]) == Lower(category)
  }

  /** The list comprehension `[tip for tip in table if <same category>]`. */
  function Matching(table: seq<Tip>, category: string): (r: seq<Tip>)
    requires WellFormed(table)
    ensures |r| <= |table|
    ensures forall t | t in r :: t in table && SameCategory(t, category)
    ensures forall t | t in table && SameCategory(t, category) :: t in r
  {
    if table == [] then []
    else
      var rest := Matching(table[1..], category);
      if SameCategory(table[0], category) then [table[0]] + rest else rest
  }

  /** The placeholder built when nothing matches; it keeps the requested category verbatim. */
  function Placeholder(category: string): (t: Tip)
    ensures "tip" in t && "category" in t && t["category"] == category
  {
    map["tip" := "No tips available for the category '" + category + "'.", "category" := category]
  }

  /** `random.choice(pool)`, with the random draw supplied by the caller as `pick`. */
  function Choice(pool: seq<Tip>, pick: nat): (t: Tip)
    requires |pool| > 0
    ensures t in pool
  {
    pool[pick % |pool|]
  }

  /** The tip `get_daily_tip(category)` returns for the draw `pick`. */
  function SelectTip(table: seq<Tip>, category: Option<string>, pick: nat): (t: Tip)
    requires WellFormed(table) && |table| > 0
    ensures "tip" in t && "category" in t
    ensures Truthy(category) && (exists u :: u in table && SameCategory(u, category.value)) ==>
      t in table && SameCategory(t, category.value)
    ensures Truthy(category) && (forall u | u in table :: !SameCategory(u, category.value)) ==>
      t == map["tip" := "No tips available for the category '" + category.value + "'.",
               "category" := category.value]
    ensures !Truthy(category) ==> t in table
  {
    if Truthy(category) then
      var filtered := Matching(table, category.value);
      if filtered != [] then Choice(filtered, pick) else Placeholder(category.value)
    else
      Choice(table, pick)
  }

  /** The pool `random.choice` draws from in each branch. */
  function Pool(table: seq<Tip>, category: Option<string>): (pool: seq<Tip>)
    requires WellFormed(table)
  {
    if Truthy(category) then Matching(table, category.value) else table
  }

  /** Every tip of the pool can be drawn: the choice ranges over all of it. */
  lemma {:induction false} EveryPoolTipReachable(table: seq<Tip>, category: Option<string>, u: Tip)
    requires WellFormed(table) && |table| > 0
    requires u in Pool(table, category)
    ensures exists pick: nat :: SelectTip(table, category, pick) == u
  {
    var pool := Pool(table, category);
    var i :| 0 <= i < |pool| && pool[i] == u;
    assert i % |pool| == i;
    assert SelectTip(table, category, i) == u;
  }

  /** Matching compares whole labels, not substrings: "Hydr" selects no tip of the table. */
  lemma {:induction false} PrefixMatchesNothing()
    ensures Matching(TIPS_DATA, "Hydr") == []
    ensures forall pick: nat :: SelectTip(TIPS_DATA, Some("Hydr"), pick) == Placeholder("Hydr")
  {
    TipsDataWellFormed();
    forall k | 0 <= k < |TIPS_DATA| ensures !SameCategory(TIPS_DATA[k], "Hydr") {
      LabelLengthDiffers(TIPS_DATA[k], "Hydr");
    }
    NothingMatches(TIPS_DATA, "Hydr");
  }

  /** Labels of different lengths never match, whatever their case. */
  lemma LabelLengthDiffers(t: Tip, category: string)
    requires "category" in t && |t["category"]| != |category|
    ensures !SameCategory(t, category)
  {
  }

  /** A table none of whose labels matches selects no tip. */
  lemma NothingMatches(table: seq<Tip>, category: string)
    requires WellFormed(table)
    requires forall k :: 0 <= k < |table| ==> !SameCategory(table[k], category)
    ensures Matching(table, category) == []
  {
  }

  /** Matching ignores case: "hYDRATION" selects the hydration tip, the only one of its category. */
  lemma {:induction false} CaseInsensitiveMatch()
    ensures Matching(TIPS_DATA, "hYDRATION") == [TIPS_DATA[0]]
  {
    TipsDataWellFormed();
    assert Lower("Hydration") == Lower("hYDRATION");
    forall k | 1 <= k < |TIPS_DATA| ensures !SameCategory(TIPS_DATA[k], "hYDRATION") {
      if k == 1 {
        FirstLetterDiffers(TIPS_DATA[k], "hYDRATION");
      } else {
        LabelLengthDiffers(TIPS_DATA[k], "hYDRATION");
      }
    }
    OnlyFirstMatches(TIPS_DATA, "hYDRATION");
  }

  /** Labels whose first letters differ after lowering never match. */
  lemma FirstLetterDiffers(t: Tip, category: string)
    requires "category" in t && |t["category"]| > 0 && |category| > 0
    requires LowerChar(t["category"][0]) != LowerChar(category[0])
    ensures !SameCategory(t, category)
  {
    assert Lower(t["category"])[0] != Lower(category)[0];
  }

  /** A table whose first entry alone matches selects exactly that entry. */
  lemma OnlyFirstMatches(table: seq<Tip>, category: string)
    requires WellFormed(table) && |table| > 0 && SameCategory(table[0], category)
    requires forall k :: 1 <= k < |table| ==> !SameCategory(table[k], category)
    ensures Matching(table, category) == [table[0]]
  {
    var rest := table[1..];
    assert forall k :: 0 <= k < |rest| ==> rest[k] == table[k + 1];
    NothingMatches(rest, category);
  }

  /** `log_tip_usage(tip)`'s row: a missing text is written as "" and a missing category as "General". */
  function UsageRecord(tip: Tip, now: string): (r: UsageRow)
    ensures r.timestamp == now
    ensures r.text == (if "tip" in tip then tip["tip"] else "")
    ensures r.category == (if "category" in tip then tip["category"] else "General")
  {
    UsageRow(now, Get(tip, "tip", ""), Get(tip, "category", "General"))
  }

  /** `log_tip_usage`: appends exactly one row to the tip log. */
  method LogTipUsage(tip: Tip, now: string, log: CsvStore.AppendFile<UsageRow>)
    requires log.Valid()
    modifies log
    ensures log.Valid() && log.present
    ensures log.rows == old(log.rows) + [UsageRecord(tip, now)]
  {
    log.AppendRow(UsageRecord(tip, now));
  }

  /** `get_daily_tip(category)`: selects from the fixed table, which it only reads, and logs
      the selected tip, placeholder or not, with its own text and category. */
  method GetDailyTip(category: Option<string>, pick: nat, now: string, log: CsvStore.AppendFile<UsageRow>)
    returns (tip: Tip)
    requires log.Valid()
    modifies log
    ensures tip == SelectTip(TIPS_DATA, category, pick)
    ensures log.Valid() && log.present
    ensures log.rows == old(log.rows) + [UsageRow(now, tip["tip"], tip["category"])]
  {
    TipsDataWellFormed();
    tip := SelectTip(TIPS_DATA, category, pick);
    LogTipUsage(tip, now, log);
  }
}
