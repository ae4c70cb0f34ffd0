/**
 * The server-side clean-up of the recipe object the model returns: the
 * ingredient list, the steps and the tags are reshaped and blank entries
 * removed; every other field is passed through untouched.
 */
module RecipeSanitize {
  import opened Wrappers
  import opened JsValues
  import opened JsStrings
  import opened Seqs

  /** An ingredient after clean-up; `None` is what the response carries as `null`. */
  datatype CleanIngredient = CleanIngredient(
    raw: string,
    quantity: Option<Number>,
    unit: Option<string>,
    item: Option<string>,
    notes: Option<string>)

  /**
   * `v != null ? asString(v).trim() : null`: absent exactly when `v` is null
   * or undefined; otherwise a trimmed string, which is empty when `v` is not
   * a string at all.
   */
  function NullableText(v: JsValue): (r: Option<string>)
    ensures r.None? <==> IsNullish(v)
    ensures r.Some? ==> IsTrimmed(r.value)
    ensures r.Some? && v.Str? ==> r.value == Trim(v.s)
    ensures r.Some? && !v.Str? ==> r.value == ""
  {
    if IsNullish(v) then None else Some(Trim(AsString(v)))
  }

  /** The `map` step applied to one ingredient of the model's list. */
  function CleanIngredientOf(ing: JsValue): CleanIngredient {
    CleanIngredient(
      Trim(AsString(Get(ing, "raw"))),
      FiniteNumber(Get(ing, "quantity")),
      NullableText(Get(ing, "unit")),
      NullableText(Get(ing, "item")),
      NullableText(Get(ing, "notes")))
  }

  /** `map` then `filter((ing) => ing.raw.length > 0)`, for one ingredient. */
  function KeepIngredient(ing: JsValue): Option<CleanIngredient> {
    var c := CleanIngredientOf(ing);
    if |c.raw| > 0 then Some(c) else None
  }

  /** An ingredient as clean-up leaves it: non-blank trimmed `raw`, trimmed optional texts, a finite quantity. */
  predicate WellFormed(c: CleanIngredient) {
    && c.raw != "" && IsTrimmed(c.raw)
    && (c.quantity.Some? ==> IsFinite(c.quantity.value))
    && (c.unit.Some? ==> IsTrimmed(c.unit.value))
    && (c.item.Some? ==> IsTrimmed(c.item.value))
    && (c.notes.Some? ==> IsTrimmed(c.notes.value))
  }

  /**
   * The ingredient list after clean-up: never more than went in, each entry
   * well formed, and exactly the cleaned inputs whose `raw` is not blank.
   */
  function SanitizeIngredients(xs: seq<JsValue>): (r: seq<CleanIngredient>)
    ensures |r| <= |xs|
    ensures forall k :: 0 <= k < |r| ==> WellFormed(r[k])
    ensures forall c :: c in r <==> exists i :: 0 <= i < |xs| && c == CleanIngredientOf(xs[i]) && c.raw != ""
  {
    var r := FilterMap(xs, KeepIngredient);
    forall k | 0 <= k < |r|
      ensures WellFormed(r[k])
    {
      FilterMapMembership(xs, KeepIngredient, r[k]);
    }
    forall c
      ensures c in r <==> exists i :: 0 <= i < |xs| && c == CleanIngredientOf(xs[i]) && c.raw != ""
    {
      FilterMapMembership(xs, KeepIngredient, c);
    }
    r
  }

  /** How a clean ingredient appears in the response object. */
  function OptionalToJs(o: Option<string>): JsValue {
    match o
    case None => Null
    case Some(s) => Str(s)
  }

  function IngredientToJs(c: CleanIngredient): JsValue {
    Obj(map[
      "raw" := Str(c.raw),
      "quantity" := (match c.quantity case None => Null case Some(n) => Num(n)),
      "unit" := OptionalToJs(c.unit),
      "item" := OptionalToJs(c.item),
      "notes" := OptionalToJs(c.notes)])
  }

  /** `asString(s).trim()`, kept by `filter(Boolean)` only when non-empty. */
  function CleanText(x: JsValue): Option<string> {
    var t := Trim(AsString(x));
    if t != "" then Some(t) else None
  }

  /**
   * Steps or tags after clean-up: non-empty trimmed strings, never more than
   * went in, and exactly the trimmed non-blank strings of the input.
   */
  function SanitizeTexts(xs: seq<JsValue>): (r: seq<string>)
    ensures |r| <= |xs|
    ensures forall k :: 0 <= k < |r| ==> r[k] != "" && IsTrimmed(r[k])
    ensures forall s :: s in r <==> exists i :: 0 <= i < |xs| && xs[i].Str? && s == Trim(xs[i].s) && s != ""
  {
    var r := FilterMap(xs, CleanText);
    forall k | 0 <= k < |r|
      ensures r[k] != "" && IsTrimmed(r[k])
    {
      FilterMapMembership(xs, CleanText, r[k]);
    }
    forall s
      ensures s in r <==> exists i :: 0 <= i < |xs| && xs[i].Str? && s == Trim(xs[i].s) && s != ""
    {
      FilterMapMembership(xs, CleanText, s);
    }
    r
  }

  /** The array fields the clean-up rewrites. */
  const Rewritten: set<string> := {"ingredients", "steps", "tags"}

  /** Replace field `key` with `f` of its items when it holds an array (`if (Array.isArray(parsed.key))`). */
  function RewriteArray(fields: map<string, JsValue>, key: string, f: seq<JsValue> -> seq<JsValue>): (r: map<string, JsValue>)
    ensures r.Keys == fields.Keys
    ensures forall k :: k in fields && k != key ==> r[k] == fields[k]
    ensures key in fields ==> r[key] == (if fields[key].Arr? then Arr(f(fields[key].items)) else fields[key])
  {
    if key in fields && fields[key].Arr? then fields[key := Arr(f(fields[key].items))] else fields
  }

  function IngredientsStep(items: seq<JsValue>): seq<JsValue> {
    MapSeq(SanitizeIngredients(items), IngredientToJs)
  }

  function TextsStep(items: seq<JsValue>): seq<JsValue> {
    MapSeq(SanitizeTexts(items), (s: string) => Str(s))
  }

  /**
   * The clean-up of the parsed model output. A value that is not an object
   * is returned as is; in an object only `ingredients`, `steps` and `tags`
   * change, and only when they hold arrays; the key set never changes.
   */
  function SanitizeRecipe(parsed: JsValue): (r: JsValue)
    ensures !parsed.Obj? ==> r == parsed
    ensures parsed.Obj? ==> r.Obj? && r.fields.Keys == parsed.fields.Keys
    ensures parsed.Obj? ==> forall k :: k in parsed.fields && k !in Rewritten ==> r.fields[k] == parsed.fields[k]
    ensures forall key :: key in Rewritten && !Get(parsed, key).Arr? ==> Get(r, key) == Get(parsed, key)
    ensures Get(parsed, "ingredients").Arr? ==>
      Get(r, "ingredients") == Arr(IngredientsStep(Get(parsed, "ingredients").items))
    ensures Get(parsed, "steps").Arr? ==> Get(r, "steps") == Arr(TextsStep(Get(parsed, "steps").items))
    ensures Get(parsed, "tags").Arr? ==> Get(r, "tags") == Arr(TextsStep(Get(parsed, "tags").items))
  {
    match parsed
    case Obj(fields) =>
      var f1 := RewriteArray(fields, "ingredients", IngredientsStep);
      var f2 := RewriteArray(f1, "steps", TextsStep);
      var f3 := RewriteArray(f2, "tags", TextsStep);
      Obj(f3)
    case _ => parsed
  }

  // ---------------------------------------------------------------------------

  /**
   * Position by position: splitting the list at any ingredient, that
   * ingredient contributes its cleaned form exactly when its trimmed `raw` is
   * not blank, between the clean-ups of the two sides (so relative order is kept).
   */
  lemma SanitizeIngredientsAt(xs: seq<JsValue>, i: nat)
    requires i < |xs|
    ensures SanitizeIngredients(xs)
         == SanitizeIngredients(xs[..i])
          + (if CleanIngredientOf(xs[i]).raw != "" then [CleanIngredientOf(xs[i])] else [])
          + SanitizeIngredients(xs[i + 1..])
  {
    FilterMapAt(xs, i, KeepIngredient);
  }

  /** An optional text that is trimmed when present reads back unchanged. */
  lemma NullableTextOfOptional(o: Option<string>)
    requires o.Some? ==> IsTrimmed(o.value)
    ensures NullableText(OptionalToJs(o)) == o
  {
  }

  /** The fields of a clean ingredient as written into the response object. */
  lemma IngredientToJsFields(c: CleanIngredient)
    ensures Get(IngredientToJs(c), "raw") == Str(c.raw)
    ensures FiniteNumber(Get(IngredientToJs(c), "quantity")) == (if c.quantity.Some? && IsFinite(c.quantity.value) then c.quantity else None)
    ensures Get(IngredientToJs(c), "unit") == OptionalToJs(c.unit)
    ensures Get(IngredientToJs(c), "item") == OptionalToJs(c.item)
    ensures Get(IngredientToJs(c), "notes") == OptionalToJs(c.notes)
  {
  }

  /** A well-formed ingredient survives being written out and cleaned again unchanged. */
  lemma IngredientRoundTrip(c: CleanIngredient)
    requires WellFormed(c)
    ensures KeepIngredient(IngredientToJs(c)) == Some(c)
  {
    IngredientToJsFields(c);
    NullableTextOfOptional(c.unit);
    NullableTextOfOptional(c.item);
    NullableTextOfOptional(c.notes);
    assert CleanIngredientOf(IngredientToJs(c)) == c;
  }

  /** Cleaning an already-cleaned ingredient list changes nothing. */
  lemma SanitizeIngredientsIdempotent(xs: seq<JsValue>)
    ensures SanitizeIngredients(IngredientsStep(xs)) == SanitizeIngredients(xs)
    ensures IngredientsStep(IngredientsStep(xs)) == IngredientsStep(xs)
  {
    var ys := SanitizeIngredients(xs);
    forall k | 0 <= k < |ys|
      ensures KeepIngredient(IngredientToJs(ys[k])) == Some(ys[k])
    {
      IngredientRoundTrip(ys[k]);
    }
    FilterMapFixpoint(ys, IngredientToJs, KeepIngredient);
  }

  /**
   * Position by position: a step or tag contributes its trimmed text exactly
   * when it is a string that is not blank; anything else (a number, null, an
   * object) contributes nothing; order is kept.
   */
  lemma SanitizeTextsAt(xs: seq<JsValue>, i: nat)
    requires i < |xs|
    ensures SanitizeTexts(xs)
         == SanitizeTexts(xs[..i])
          + (if xs[i].Str? && Trim(xs[i].s) != "" then [Trim(xs[i].s)] else [])
          + SanitizeTexts(xs[i + 1..])
  {
    FilterMapAt(xs, i, CleanText);
  }

  /** Cleaning already-cleaned steps or tags changes nothing. */
  lemma SanitizeTextsIdempotent(xs: seq<JsValue>)
    ensures SanitizeTexts(TextsStep(xs)) == SanitizeTexts(xs)
    ensures TextsStep(TextsStep(xs)) == TextsStep(xs)
  {
    var ys := SanitizeTexts(xs);
    FilterMapFixpoint(ys, (s: string) => Str(s), CleanText);
  }

  /** The clean-up is idempotent: its output is already clean. */
  lemma SanitizeRecipeIdempotent(parsed: JsValue)
    ensures SanitizeRecipe(SanitizeRecipe(parsed)) == SanitizeRecipe(parsed)
  {
    if parsed.Obj? {
      var r := SanitizeRecipe(parsed);
      var rr := SanitizeRecipe(r);
      forall k | k in r.fields
        ensures rr.fields[k] == r.fields[k]
      {
        if k == "ingredients" {
          if Get(parsed, k).Arr? {
            SanitizeIngredientsIdempotent(Get(parsed, k).items);
          }
        } else if k == "steps" || k == "tags" {
          if Get(parsed, k).Arr? {
            SanitizeTextsIdempotent(Get(parsed, k).items);
          }
        }
      }
      assert rr.fields == r.fields;
    }
  }
}
