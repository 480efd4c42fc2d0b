/** The add/edit dish popup: a list of serving rows edited in place by
    dotted field paths, the price check, the load of an existing dish into
    rows, the submit payload and path, and the inline creation of
    categories and subcategories. Server replies are parameters. */
module DishForm {
  import opened Values
  import opened Text
  import opened Http
  import opened Catalog
  import PriceFormat

  /** The nutrition part of a form row. The four values always exist; the
      unit fields exist only on rows the "add serving" button made. */
  datatype NutritionRow = NutritionRow(
    calories: Scalar, caloriesUnit: Option<string>,
    protein: Scalar, proteinUnit: Option<string>,
    carbs: Scalar, carbsUnit: Option<string>,
    totalFat: Scalar, fatUnit: Option<string>)

  /** One serving row of the form. */
  datatype ServingRow = ServingRow(size: string, price: Scalar, nutritionFacts: NutritionRow)

  /** The row `handleAddServingInfo` appends: every field the empty string. */
  const EmptyRow := ServingRow("", Str(""), NutritionRow(Str(""), Some(""), Str(""), Some(""), Str(""), Some(""), Str(""), Some("")))

  const NutrientNames: set<string> := {"calories", "protein", "carbs", "totalFat"}

  /** The value of the nutrient `name` in a row. */
  function Nutrient(n: NutritionRow, name: string): Scalar
    requires name in NutrientNames
  {
    if name == "calories" then n.calories
    else if name == "protein" then n.protein
    else if name == "carbs" then n.carbs
    else n.totalFat
  }

  function Units(n: NutritionRow): (Option<string>, Option<string>, Option<string>, Option<string>)
  {
    (n.caloriesUnit, n.proteinUnit, n.carbsUnit, n.fatUnit)
  }

  // ---------------------------------------------------------------------
  // Updating a field by dotted path

  /** The fields whose updates go through the price check: `field ===
      "price" || field.includes("price")`. */
  predicate IsPriceField(field: string)
  {
    field == "price" || Contains(field, "price")
  }

  /** What `temp` refers to while `keys.forEach` walks the path: the row,
      its nutrition object, or a string, number or `undefined`, on which
      the final write (or an earlier read) throws a TypeError. */
  datatype Cursor = AtRow | AtNutrition | Stuck

  /** `updatedServingInfos[index]`: `undefined` outside the list. */
  function Start(rows: seq<ServingRow>, index: int): (c: Cursor)
    ensures c != Stuck <==> 0 <= index < |rows|
  {
    if 0 <= index < |rows| then AtRow else Stuck
  }

  /** `temp = temp[key]`: only the row's `nutritionFacts` is an object. */
  function StepInto(c: Cursor, key: string): Cursor
  {
    if c == AtRow && key == "nutritionFacts" then AtNutrition else Stuck
  }

  /** Where the walk over all keys but the last leaves `temp`. */
  function Walk(c: Cursor, keys: seq<string>): (r: Cursor)
    requires c != AtNutrition
    ensures c == Stuck ==> r == Stuck
    ensures r == AtRow <==> c == AtRow && keys == []
    ensures r == AtNutrition <==> c == AtRow && keys == ["nutritionFacts"]
  {
    if keys == [] then c
    else
      assert keys == keys[..|keys| - 1] + [keys[|keys| - 1]];
      StepInto(Walk(c, keys[..|keys| - 1]), keys[|keys| - 1])
  }

  /** The effect of the final `temp[key] = value`. */
  datatype Write = Wrote(row: ServingRow) | Stray | Overwritten

  function Assign(row: ServingRow, c: Cursor, key: string, value: string): Write
    requires c != Stuck
  {
    if c == AtRow then
      if key == "size" then Wrote(row.(size := value))
      else if key == "price" then Wrote(row.(price := Str(value)))
      else if key == "nutritionFacts" then Overwritten
      else Stray
    else
      var n := row.nutritionFacts;
      if key == "calories" then Wrote(row.(nutritionFacts := n.(calories := Str(value))))
      else if key == "caloriesUnit" then Wrote(row.(nutritionFacts := n.(caloriesUnit := Some(value))))
      else if key == "protein" then Wrote(row.(nutritionFacts := n.(protein := Str(value))))
      else if key == "proteinUnit" then Wrote(row.(nutritionFacts := n.(proteinUnit := Some(value))))
      else if key == "carbs" then Wrote(row.(nutritionFacts := n.(carbs := Str(value))))
      else if key == "carbsUnit" then Wrote(row.(nutritionFacts := n.(carbsUnit := Some(value))))
      else if key == "totalFat" then Wrote(row.(nutritionFacts := n.(totalFat := Str(value))))
      else if key == "fatUnit" then Wrote(row.(nutritionFacts := n.(fatUnit := Some(value))))
      else Stray
  }

  /** How `handleChangeServingInfo` ends: the new rows, the price check
      refusing the value, a TypeError, a write to a property the form does
      not have, or the nutrition object replaced by a string. */
  datatype ChangeOutcome =
    | Applied(rows: seq<ServingRow>)
    | PriceRejected
    | Threw
    | StrayProperty
    | NutritionOverwritten

  /** `handleChangeServingInfo(index, field, value)` on the rows `rows`. */
  function ChangeServingInfos(rows: seq<ServingRow>, index: int, field: string, value: string): ChangeOutcome
  {
    if IsPriceField(field) && !PriceFormat.IsFloat(value) then PriceRejected
    else
      var keys := Split(field, '.');
      var c := Walk(Start(rows, index), keys[..|keys| - 1]);
      if c == Stuck then Threw
      else match Assign(rows[index], c, keys[|keys| - 1], value)
        case Wrote(row) => Applied(rows[index := row])
        case Stray => StrayProperty
        case Overwritten => NutritionOverwritten
  }

  /** An applied change keeps the number of rows and every row but `index`. */
  lemma ChangeTouchesOneRow(rows: seq<ServingRow>, index: int, field: string, value: string)
    ensures var o := ChangeServingInfos(rows, index, field, value);
      o.Applied? ==>
        0 <= index < |rows| && |o.rows| == |rows|
        && forall j :: 0 <= j < |rows| && j != index ==> o.rows[j] == rows[j]
  {
  }

  /** A row index outside the list makes every change that passes the
      price check throw. */
  lemma OutOfRangeThrows(rows: seq<ServingRow>, index: int, field: string, value: string)
    requires !(0 <= index < |rows|)
    ensures ChangeServingInfos(rows, index, field, value) ==
      (if IsPriceField(field) && !PriceFormat.IsFloat(value) then PriceRejected else Threw)
  {
  }

  /** The size input sets exactly the size of row `index`. */
  lemma SizeChange(rows: seq<ServingRow>, index: int, value: string)
    requires 0 <= index < |rows|
    ensures ChangeServingInfos(rows, index, "size", value) == Applied(rows[index := rows[index].(size := value)])
  {
    AbsentFirst("size", "price");
    SplitNoSeparator("size", '.');
  }

  /** The price input sets the price of row `index` exactly when the value
      is empty or matches `^[0-9]+(\.[0-9]*)?$`; otherwise no row changes. */
  lemma PriceChange(rows: seq<ServingRow>, index: int, value: string)
    requires 0 <= index < |rows|
    ensures ChangeServingInfos(rows, index, "price", value) ==
      if value == "" || PriceFormat.MatchesPattern(value)
      then Applied(rows[index := rows[index].(price := Str(value))])
      else PriceRejected
  {
    PriceFormat.IsFloatDecidesPattern(value);
    SplitNoSeparator("price", '.');
  }

  /** The four nutrient inputs never go through the price check. */
  lemma NutrientPathsNotPrice(name: string)
    requires name in NutrientNames
    ensures !IsPriceField("nutritionFacts." + name)
  {
    var s := "nutritionFacts." + name;
    if name == "protein" {
      forall i | 0 <= i <= |s| - 5 ensures !OccursAt(s, "price", i) {
        if i == 15 {
          NotAt(s, "price", i, 2);
        } else {
          assert s[i] in s[..15] + s[16..];
          NotAt(s, "price", i, 0);
        }
      }
    } else {
      AbsentFirst(s, "price");
    }
  }

  /** A nutrient input `nutritionFacts.<name>` sets that nutrient of row
      `index` and leaves every other field and every other row as it was. */
  lemma NutrientChange(rows: seq<ServingRow>, index: int, name: string, value: string)
    requires 0 <= index < |rows| && name in NutrientNames
    ensures var o := ChangeServingInfos(rows, index, "nutritionFacts." + name, value);
      o.Applied? && |o.rows| == |rows|
      && (forall j :: 0 <= j < |rows| && j != index ==> o.rows[j] == rows[j])
      && o.rows[index].size == rows[index].size && o.rows[index].price == rows[index].price
      && Nutrient(o.rows[index].nutritionFacts, name) == Str(value)
      && (forall other :: other in NutrientNames && other != name ==>
            Nutrient(o.rows[index].nutritionFacts, other) == Nutrient(rows[index].nutritionFacts, other))
      && Units(o.rows[index].nutritionFacts) == Units(rows[index].nutritionFacts)
  {
    NutrientPathsNotPrice(name);
    assert "nutritionFacts." + name == "nutritionFacts" + ['.'] + name;
    SplitTwo("nutritionFacts", name, '.');
    var keys := Split("nutritionFacts." + name, '.');
    assert keys[..|keys| - 1] == ["nutritionFacts"];
  }

  // ---------------------------------------------------------------------
  // Adding and removing rows

  /** `rows.filter((_, i) => i !== index)` */
  function WithoutIndex<T>(rows: seq<T>, index: int): (r: seq<T>)
    ensures 0 <= index < |rows| ==> r == rows[..index] + rows[index + 1..]
    ensures !(0 <= index < |rows|) ==> r == rows
  {
    if rows == [] then []
    else
      var rest := WithoutIndex(rows[1..], index - 1);
      assert rows == [rows[0]] + rows[1..];
      (if index == 0 then [] else [rows[0]]) + rest
  }

  // ---------------------------------------------------------------------
  // Loading an existing dish

  /** `m?.value || ""` */
  function MeasureValue(m: Option<Measure>): Scalar
  {
    if m.Some? then ScalarOrEmpty(m.value.value) else Str("")
  }

  /** The transform of one `{ servingInfo }` entry into a form row. */
  function TransformEntry(e: ServingEntry): ServingRow
  {
    var info := e.servingInfo;
    var facts := if info.Some? then info.value.nutritionFacts else None;
    ServingRow(
      if info.Some? then OrEmpty(info.value.size) else "",
      if info.Some? then ScalarOrEmpty(info.value.price) else Str(""),
      NutritionRow(
        if facts.Some? then MeasureValue(facts.value.calories) else Str(""), None,
        if facts.Some? then MeasureValue(facts.value.protein) else Str(""), None,
        if facts.Some? then MeasureValue(facts.value.carbs) else Str(""), None,
        if facts.Some? then MeasureValue(facts.value.totalFat) else Str(""), None))
  }

  /** `dish.servingInfos?.map(...) || []` */
  function TransformServings(entries: Option<seq<ServingEntry>>): seq<ServingRow>
  {
    if entries.None? then [] else seq(|entries.value|, i requires 0 <= i < |entries.value| => TransformEntry(entries.value[i]))
  }

  /** A value as the form keeps it: truthy, or the empty string. */
  predicate FormValue(v: Scalar)
  {
    ScalarTruthy(v) || v == Str("")
  }

  /** The server's nutrient value behind a nutrient name, if any. */
  function ServerNutrient(e: ServingEntry, name: string): Option<Scalar>
    requires name in NutrientNames
  {
    if e.servingInfo.None? || e.servingInfo.value.nutritionFacts.None? then None
    else
      var f := e.servingInfo.value.nutritionFacts.value;
      var m := if name == "calories" then f.calories
               else if name == "protein" then f.protein
               else if name == "carbs" then f.carbs
               else f.totalFat;
      if m.None? then None else m.value.value
  }

  /** Loading gives one row per entry (none when the list is absent); a
      truthy value is carried over, anything missing or falsy becomes "",
      and loaded rows have no unit fields. */
  lemma TransformProperties(entries: Option<seq<ServingEntry>>)
    ensures |TransformServings(entries)| == (if entries.None? then 0 else |entries.value|)
    ensures forall i :: 0 <= i < |TransformServings(entries)| ==>
      var e := entries.value[i];
      var row := TransformServings(entries)[i];
      row.size == (if e.servingInfo.Some? && StrTruthy(e.servingInfo.value.size) then e.servingInfo.value.size.value else "")
      && row.price == (if e.servingInfo.Some? && Truthy(e.servingInfo.value.price) then e.servingInfo.value.price.value else Str(""))
      && (forall name :: name in NutrientNames ==>
            Nutrient(row.nutritionFacts, name) == ScalarOrEmpty(ServerNutrient(e, name)))
      && Units(row.nutritionFacts) == (None, None, None, None)
  {
  }

  /** No loaded value is falsy unless it is the empty string: a price or
      nutrient of 0 arrives as "". */
  lemma TransformNormalises(entries: Option<seq<ServingEntry>>)
    ensures forall row :: row in TransformServings(entries) ==>
      FormValue(row.price) && forall name :: name in NutrientNames ==> FormValue(Nutrient(row.nutritionFacts, name))
  {
    forall row | row in TransformServings(entries)
      ensures FormValue(row.price) && forall name :: name in NutrientNames ==> FormValue(Nutrient(row.nutritionFacts, name))
    {
      var i :| 0 <= i < |TransformServings(entries)| && TransformServings(entries)[i] == row;
      var e := entries.value[i];
      assert row == TransformEntry(e);
    }
  }

  // ---------------------------------------------------------------------
  // Submitting

  datatype NutritionPayload = NutritionPayload(calories: Scalar, protein: Scalar, carbs: Scalar, totalFat: Scalar)

  datatype ServingPayload = ServingPayload(size: string, price: Scalar, nutritionFacts: NutritionPayload)

  /** The JSON body of the create and edit requests. */
  datatype DishPayload = DishPayload(
    dishName: string,
    description: string,
    originalCategoryId: string,
    originalSubCategoryId: string,
    servingInfos: seq<ServingPayload>)

  function RowPayload(row: ServingRow): ServingPayload
  {
    var n := row.nutritionFacts;
    ServingPayload(row.size, row.price, NutritionPayload(n.calories, n.protein, n.carbs, n.totalFat))
  }

  function RowsPayload(rows: seq<ServingRow>): seq<ServingPayload>
  {
    seq(|rows|, i requires 0 <= i < |rows| => RowPayload(rows[i]))
  }

  /** `dishData` of `handleSubmit`. */
  function Payload(dishName: string, description: string, dish: Option<Dish>, rows: seq<ServingRow>): DishPayload
  {
    DishPayload(
      dishName,
      description,
      if dish.Some? then OrEmpty(dish.value.categoryId) else "",
      if dish.Some? then OrEmpty(dish.value.subCategoryId) else "",
      RowsPayload(rows))
  }

  /** The payload keeps the rows' number and order and, per row, the size,
      the price and the four nutrient values; the unit fields are dropped,
      and the original ids are "" when the dish lacks them. */
  lemma PayloadProperties(dishName: string, description: string, dish: Option<Dish>, rows: seq<ServingRow>)
    ensures var p := Payload(dishName, description, dish, rows);
      |p.servingInfos| == |rows|
      && (forall i :: 0 <= i < |rows| ==>
            p.servingInfos[i].size == rows[i].size && p.servingInfos[i].price == rows[i].price
            && p.servingInfos[i].nutritionFacts.calories == Nutrient(rows[i].nutritionFacts, "calories")
            && p.servingInfos[i].nutritionFacts.protein == Nutrient(rows[i].nutritionFacts, "protein")
            && p.servingInfos[i].nutritionFacts.carbs == Nutrient(rows[i].nutritionFacts, "carbs")
            && p.servingInfos[i].nutritionFacts.totalFat == Nutrient(rows[i].nutritionFacts, "totalFat"))
      && (dish.None? || !StrTruthy(dish.value.categoryId) ==> p.originalCategoryId == "")
      && (dish.None? || !StrTruthy(dish.value.subCategoryId) ==> p.originalSubCategoryId == "")
  {
  }

  /** Rows that differ only in their unit fields give the same payload. */
  lemma PayloadIgnoresUnits(a: ServingRow, b: ServingRow)
    requires a.size == b.size && a.price == b.price
    requires forall name :: name in NutrientNames ==> Nutrient(a.nutritionFacts, name) == Nutrient(b.nutritionFacts, name)
    ensures RowPayload(a) == RowPayload(b)
  {
    assert Nutrient(a.nutritionFacts, "calories") == Nutrient(b.nutritionFacts, "calories");
    assert Nutrient(a.nutritionFacts, "protein") == Nutrient(b.nutritionFacts, "protein");
    assert Nutrient(a.nutritionFacts, "carbs") == Nutrient(b.nutritionFacts, "carbs");
    assert Nutrient(a.nutritionFacts, "totalFat") == Nutrient(b.nutritionFacts, "totalFat");
  }

  /** A blank serving in the payload: what an untouched new row sends. */
  const BlankServing := ServingPayload("", Str(""), NutritionPayload(Str(""), Str(""), Str(""), Str("")))

  /** Appending a row appends one blank serving to the payload. */
  lemma AppendRowPayload(rows: seq<ServingRow>)
    ensures RowsPayload(rows + [EmptyRow]) == RowsPayload(rows) + [BlankServing]
  {
  }

  /** Removing a row removes the same serving from the payload. */
  lemma RemoveRowPayload(rows: seq<ServingRow>, index: int)
    ensures RowsPayload(WithoutIndex(rows, index)) == WithoutIndex(RowsPayload(rows), index)
  {
  }

  /** Submitting right after loading a dish sends back the dish's ids and
      every truthy size, price and nutrient value it had, one serving per
      entry, in order. */
  lemma LoadThenSubmit(d: Dish)
    ensures var p := Payload(OrEmpty(d.dishName), OrEmpty(d.description), Some(d), TransformServings(d.servingInfos));
      p.originalCategoryId == OrEmpty(d.categoryId) && p.originalSubCategoryId == OrEmpty(d.subCategoryId)
      && |p.servingInfos| == (if d.servingInfos.None? then 0 else |d.servingInfos.value|)
      && forall i :: 0 <= i < |p.servingInfos| ==>
           var e := d.servingInfos.value[i];
           (e.servingInfo.Some? && StrTruthy(e.servingInfo.value.size) ==> p.servingInfos[i].size == e.servingInfo.value.size.value)
           && (e.servingInfo.Some? && Truthy(e.servingInfo.value.price) ==> p.servingInfos[i].price == e.servingInfo.value.price.value)
           && (Truthy(ServerNutrient(e, "calories")) ==> p.servingInfos[i].nutritionFacts.calories == ServerNutrient(e, "calories").value)
           && (Truthy(ServerNutrient(e, "protein")) ==> p.servingInfos[i].nutritionFacts.protein == ServerNutrient(e, "protein").value)
           && (Truthy(ServerNutrient(e, "carbs")) ==> p.servingInfos[i].nutritionFacts.carbs == ServerNutrient(e, "carbs").value)
           && (Truthy(ServerNutrient(e, "totalFat")) ==> p.servingInfos[i].nutritionFacts.totalFat == ServerNutrient(e, "totalFat").value)
  {
    TransformProperties(d.servingInfos);
    var rows := TransformServings(d.servingInfos);
    PayloadProperties(OrEmpty(d.dishName), OrEmpty(d.description), Some(d), rows);
  }

  /** The request path: `editDish/{dish._id}/{category}/{subcategory}` in
      edit mode, `createDish/{category}/{subcategory}` otherwise. In edit
      mode without a dish, reading `dish._id` throws and there is none. */
  function SubmitPath(baseUrl: string, mode: string, dish: Option<Dish>, categoryId: string, subCategoryId: string): Option<string>
  {
    if mode == "edit" then
      if dish.None? then None
      else Some(baseUrl + "/api/restaurants/editDish/" + dish.value.id + "/" + categoryId + "/" + subCategoryId)
    else Some(baseUrl + "/api/restaurants/createDish/" + categoryId + "/" + subCategoryId)
  }

  /** The last path segment is the selected subcategory id, "" when none
      is selected. */
  lemma SubmitPathLastSegment(baseUrl: string, mode: string, dish: Option<Dish>, categoryId: string, subCategoryId: string)
    requires '/' !in subCategoryId
    requires mode == "edit" ==> dish.Some?
    ensures SubmitPath(baseUrl, mode, dish, categoryId, subCategoryId).Some?
    ensures var segments := Split(SubmitPath(baseUrl, mode, dish, categoryId, subCategoryId).value, '/');
      |segments| >= 2 && segments[|segments| - 1] == subCategoryId
  {
    var path := SubmitPath(baseUrl, mode, dish, categoryId, subCategoryId).value;
    var front := path[..|path| - |subCategoryId| - 1];
    assert path == front + ['/'] + subCategoryId;
    SplitLast(front, subCategoryId, '/');
  }

  /** The start of the fallback message of a failed submit. */
  function SubmitErrorPrefix(mode: string): string
  {
    "Error " + (if mode == "edit" then "updating" else "adding") + " dish. "
  }

  /** The message a failed submit shows: the response's `message` when it
      is set, else the fallback text followed by the response's `details`. */
  function SubmitErrorMessage(mode: string, f: Failure): string
  {
    if f.HttpError? && StrTruthy(f.body.message) then f.body.message.value
    else SubmitErrorPrefix(mode) + (if f.HttpError? then OrEmpty(f.body.details) else "")
  }

  /** A failed submit always shows something; a server message wins, and
      otherwise the text names the operation and ends with the details. */
  lemma SubmitErrorShown(mode: string, f: Failure)
    ensures SubmitErrorMessage(mode, f) != ""
    ensures f.HttpError? && StrTruthy(f.body.message) ==> SubmitErrorMessage(mode, f) == f.body.message.value
    ensures !(f.HttpError? && StrTruthy(f.body.message)) ==>
      SubmitErrorPrefix(mode) <= SubmitErrorMessage(mode, f)
      && (f.NoResponse? || f.Unexpected? ==> SubmitErrorMessage(mode, f) == SubmitErrorPrefix(mode))
    ensures SubmitErrorPrefix(mode) == (if mode == "edit" then "Error updating dish. " else "Error adding dish. ")
  {
    var p := SubmitErrorPrefix(mode);
    var d := if f.HttpError? then OrEmpty(f.body.details) else "";
    assert (p + d)[..|p|] == p;
  }

  /** The description textarea keeps at most 150 characters. */
  const MaxDescription: nat := 150

  /** `value.slice(0, 150)` */
  function ClampDescription(text: string): (r: string)
    ensures |r| <= MaxDescription && r <= text
    ensures |text| <= MaxDescription ==> r == text
    ensures |text| > MaxDescription ==> |r| == MaxDescription
  {
    Take(text, MaxDescription)
  }

  lemma ClampIdempotent(text: string)
    ensures ClampDescription(ClampDescription(text)) == ClampDescription(text)
  {
  }

  // ---------------------------------------------------------------------
  // Categories

  /** `s.find(p)` */
  function Find<T(==,!new)>(s: seq<T>, p: T -> bool): Option<T>
  {
    if s == [] then None
    else if p(s[0]) then Some(s[0])
    else Find(s[1..], p)
  }

  /** `find` yields nothing exactly when no element satisfies `p`, and
      otherwise the first element that does. */
  lemma {:induction false} FindFirst<T(!new)>(s: seq<T>, p: T -> bool)
    ensures Find(s, p).None? <==> forall i :: 0 <= i < |s| ==> !p(s[i])
    ensures Find(s, p).Some? ==>
      exists i :: 0 <= i < |s| && s[i] == Find(s, p).value && p(s[i]) && forall j :: 0 <= j < i ==> !p(s[j])
  {
    if s != [] && !p(s[0]) {
      var t := s[1..];
      FindFirst(t, p);
      assert forall i :: 1 <= i < |s| ==> s[i] == t[i - 1];
      if Find(t, p).Some? {
        var k :| 0 <= k < |t| && t[k] == Find(t, p).value && p(t[k]) && forall j :: 0 <= j < k ==> !p(t[j]);
        assert s[k + 1] == Find(s, p).value && p(s[k + 1]);
        assert forall j :: 0 <= j < k + 1 ==> !p(s[j]);
      }
    }
  }

  function CategoryById(categories: seq<Category>, id: string): Option<Category>
  {
    Find(categories, (c: Category) => c.categoryId == id)
  }

  function CategoryByName(categories: seq<Category>, name: string): Option<Category>
  {
    Find(categories, (c: Category) => c.categoryName == name)
  }

  function SubCategoryByName(subs: seq<SubCategory>, name: string): Option<SubCategory>
  {
    Find(subs, (s: SubCategory) => s.subCategoryName == name)
  }

  /** The category selected after adding one is the first whose name
      equals the input; later namesakes are never chosen. */
  lemma CategoryByNameFirst(categories: seq<Category>, name: string)
    ensures CategoryByName(categories, name).None? <==> forall i :: 0 <= i < |categories| ==> categories[i].categoryName != name
    ensures CategoryByName(categories, name).Some? ==>
      exists i :: 0 <= i < |categories| && categories[i] == CategoryByName(categories, name).value
        && categories[i].categoryName == name
        && forall j :: 0 <= j < i ==> categories[j].categoryName != name
  {
    FindFirst(categories, (c: Category) => c.categoryName == name);
  }

  /** Likewise for the subcategory selected after adding one. */
  lemma SubCategoryByNameFirst(subs: seq<SubCategory>, name: string)
    ensures SubCategoryByName(subs, name).None? <==> forall i :: 0 <= i < |subs| ==> subs[i].subCategoryName != name
    ensures SubCategoryByName(subs, name).Some? ==>
      exists i :: 0 <= i < |subs| && subs[i] == SubCategoryByName(subs, name).value
        && subs[i].subCategoryName == name
        && forall j :: 0 <= j < i ==> subs[j].subCategoryName != name
  {
    FindFirst(subs, (s: SubCategory) => s.subCategoryName == name);
  }

  const FetchCategoriesError := "Error fetching categories."
  const AddCategoryError := "Error adding category."
  const AddSubCategoryError := "Error adding subcategory."

  /** One request of the submit: where it goes and what it carries. */
  datatype SubmitRequest = SubmitRequest(path: string, payload: DishPayload)

  /** The popup's state. `mode`, `dish` and `restaurantId` are props. */
  class DishFormState {
    const mode: string
    const dish: Option<Dish>
    const restaurantId: string
    var categories: seq<Category>
    var subCategories: seq<SubCategory>
    var selectedCategoryId: string
    var newCategory: string
    var selectedSubCategoryId: string
    var newSubCategory: string
    var dishName: string
    var description: string
    var servingInfos: seq<ServingRow>
    var backendMessage: string

    constructor (mode: string, dish: Option<Dish>, restaurantId: string)
      ensures this.mode == mode && this.dish == dish && this.restaurantId == restaurantId
      ensures categories == [] && subCategories == [] && servingInfos == []
      ensures selectedCategoryId == "" && newCategory == "" && selectedSubCategoryId == "" && newSubCategory == ""
      ensures dishName == (if dish.Some? then OrEmpty(dish.value.dishName) else "")
      ensures description == (if dish.Some? then OrEmpty(dish.value.description) else "")
      ensures backendMessage == ""
    {
      this.mode := mode;
      this.dish := dish;
      this.restaurantId := restaurantId;
      categories := [];
      subCategories := [];
      selectedCategoryId := "";
      newCategory := "";
      selectedSubCategoryId := "";
      newSubCategory := "";
      dishName := if dish.Some? then OrEmpty(dish.value.dishName) else "";
      description := if dish.Some? then OrEmpty(dish.value.description) else "";
      servingInfos := [];
      backendMessage := "";
    }

    /** The edit-mode effect: fill the form from the dish. */
    method LoadForEdit()
      modifies this
      ensures mode == "edit" && dish.Some? ==>
        dishName == OrEmpty(dish.value.dishName) && description == OrEmpty(dish.value.description)
        && selectedCategoryId == OrEmpty(dish.value.categoryId)
        && selectedSubCategoryId == OrEmpty(dish.value.subCategoryId)
        && servingInfos == TransformServings(dish.value.servingInfos)
      ensures !(mode == "edit" && dish.Some?) ==>
        dishName == old(dishName) && description == old(description)
        && selectedCategoryId == old(selectedCategoryId) && selectedSubCategoryId == old(selectedSubCategoryId)
        && servingInfos == old(servingInfos)
      ensures categories == old(categories) && subCategories == old(subCategories)
      ensures newCategory == old(newCategory) && newSubCategory == old(newSubCategory)
      ensures backendMessage == old(backendMessage)
    {
      if mode == "edit" && dish.Some? {
        var d := dish.value;
        dishName := OrEmpty(d.dishName);
        description := OrEmpty(d.description);
        selectedCategoryId := OrEmpty(d.categoryId);
        selectedSubCategoryId := OrEmpty(d.subCategoryId);
        servingInfos := TransformServings(d.servingInfos);
      }
    }

    /** The category fetch effect: store the category tree and, in edit
        mode, select the dish's category when it is in the tree. */
    method FetchCategories(reply: Reply<AllDishes>)
      modifies this
      ensures reply.Err? ==>
        backendMessage == FetchCategoriesError && categories == old(categories)
        && subCategories == old(subCategories) && selectedCategoryId == old(selectedCategoryId)
        && selectedSubCategoryId == old(selectedSubCategoryId)
      ensures reply.Ok? ==>
        var cats := CategoriesOrEmpty(reply.data);
        var wanted := mode == "edit" && dish.Some? && StrTruthy(dish.value.categoryId);
        var found := if wanted then CategoryById(cats, dish.value.categoryId.value) else None;
        categories == cats && backendMessage == old(backendMessage)
        && (found.Some? ==>
              subCategories == found.value.subCategories
              && selectedCategoryId == dish.value.categoryId.value
              && selectedSubCategoryId == OrEmpty(dish.value.subCategoryId))
        && (found.None? ==>
              subCategories == old(subCategories) && selectedCategoryId == old(selectedCategoryId)
              && selectedSubCategoryId == old(selectedSubCategoryId))
      ensures dishName == old(dishName) && description == old(description) && servingInfos == old(servingInfos)
      ensures newCategory == old(newCategory) && newSubCategory == old(newSubCategory)
    {
      match reply {
        case Err(_) =>
          backendMessage := FetchCategoriesError;
        case Ok(data) =>
          var cats := CategoriesOrEmpty(data);
          categories := cats;
          if mode == "edit" && dish.Some? && StrTruthy(dish.value.categoryId) {
            var found := CategoryById(cats, dish.value.categoryId.value);
            if found.Some? {
              subCategories := found.value.subCategories;
              selectedCategoryId := dish.value.categoryId.value;
              selectedSubCategoryId := OrEmpty(dish.value.subCategoryId);
            }
          }
      }
    }

    /** The effect run when the selected category changes: offer that
        category's subcategories and preselect the dish's subcategory. */
    method SyncSubCategories()
      modifies this`subCategories, this`selectedSubCategoryId
      ensures selectedCategoryId != "" ==>
        var found := CategoryById(categories, selectedCategoryId);
        subCategories == (if found.Some? then found.value.subCategories else [])
        && selectedSubCategoryId == (if dish.Some? then OrEmpty(dish.value.subCategoryId) else "")
      ensures selectedCategoryId == "" ==>
        subCategories == old(subCategories) && selectedSubCategoryId == old(selectedSubCategoryId)
    {
      if selectedCategoryId != "" {
        var found := CategoryById(categories, selectedCategoryId);
        subCategories := if found.Some? then found.value.subCategories else [];
        selectedSubCategoryId := if dish.Some? then OrEmpty(dish.value.subCategoryId) else "";
      }
    }

    /** The "Add" button next to the category list: create the category,
        fetch the tree again and select the first category with the typed
        name. A blank name sends nothing. */
    method HandleAddCategory(createReply: Reply<()>, refetchReply: Reply<AllDishes>) returns (requested: bool)
      modifies this`categories, this`subCategories, this`selectedCategoryId, this`selectedSubCategoryId
      modifies this`newCategory, this`backendMessage
      ensures requested <==> Trim(old(newCategory)) != ""
      ensures !requested ==> unchanged(this)
      ensures requested && (createReply.Err? || refetchReply.Err?) ==>
        backendMessage == AddCategoryError
        && unchanged(this`categories, this`subCategories, this`selectedCategoryId, this`selectedSubCategoryId, this`newCategory)
      ensures requested && createReply.Ok? && refetchReply.Ok? ==>
        backendMessage == old(backendMessage) && newCategory == ""
        && CategoryAdded(old(newCategory), CategoriesOrEmpty(refetchReply.data), old(selectedCategoryId), old(subCategories), old(selectedSubCategoryId))
    {
      if Trim(newCategory) == "" {
        return false;
      }
      requested := true;
      if createReply.Err? || refetchReply.Err? {
        backendMessage := AddCategoryError;
        return;
      }
      SelectAddedCategory(newCategory, CategoriesOrEmpty(refetchReply.data));
    }

    /** The state after the refetch that follows adding the category
        `name`: the new tree, and the first category named `name` selected
        with its subcategories and no subcategory, if there is one. */
    ghost predicate CategoryAdded(name: string, cats: seq<Category>, oldSelected: string,
                                  oldSubs: seq<SubCategory>, oldSubSelected: string)
      reads this
    {
      var found := CategoryByName(cats, name);
      categories == cats
      && if found.Some? then
           selectedCategoryId == found.value.categoryId
           && subCategories == found.value.subCategories && selectedSubCategoryId == ""
         else
           selectedCategoryId == oldSelected && subCategories == oldSubs && selectedSubCategoryId == oldSubSelected
    }

    method SelectAddedCategory(name: string, cats: seq<Category>)
      modifies this`categories, this`subCategories, this`selectedCategoryId, this`selectedSubCategoryId, this`newCategory
      ensures newCategory == ""
      ensures CategoryAdded(name, cats, old(selectedCategoryId), old(subCategories), old(selectedSubCategoryId))
    {
      categories := cats;
      newCategory := "";
      var found := CategoryByName(cats, name);
      if found.Some? {
        selectedCategoryId := found.value.categoryId;
        subCategories := found.value.subCategories;
        selectedSubCategoryId := "";
      }
    }

    /** The "Add" button next to the subcategory list: needs a non-blank
        name and a selected category; after the refetch it offers that
        category's subcategories and selects the first with the typed
        name. The category list itself is not refreshed. */
    method HandleAddSubCategory(createReply: Reply<()>, refetchReply: Reply<AllDishes>) returns (requested: bool)
      modifies this`subCategories, this`selectedSubCategoryId, this`newSubCategory, this`backendMessage
      ensures requested <==> Trim(old(newSubCategory)) != "" && old(selectedCategoryId) != ""
      ensures !requested ==>
        subCategories == old(subCategories) && selectedSubCategoryId == old(selectedSubCategoryId)
        && newSubCategory == old(newSubCategory) && backendMessage == old(backendMessage)
      ensures requested && (createReply.Err? || refetchReply.Err?) ==>
        backendMessage == AddSubCategoryError && newSubCategory == old(newSubCategory)
        && subCategories == old(subCategories) && selectedSubCategoryId == old(selectedSubCategoryId)
      ensures requested && createReply.Ok? && refetchReply.Ok? ==>
        var cats := CategoriesOrEmpty(refetchReply.data);
        var cat := CategoryById(cats, old(selectedCategoryId));
        var sub := if cat.Some? then SubCategoryByName(cat.value.subCategories, old(newSubCategory)) else None;
        newSubCategory == "" && backendMessage == old(backendMessage)
        && subCategories == (if cat.Some? then cat.value.subCategories else old(subCategories))
        && selectedSubCategoryId == (if sub.Some? then sub.value.subCategoryId else old(selectedSubCategoryId))
    {
      if Trim(newSubCategory) == "" || selectedCategoryId == "" {
        return false;
      }
      requested := true;
      var name := newSubCategory;
      if createReply.Err? || refetchReply.Err? {
        backendMessage := AddSubCategoryError;
        return;
      }
      var data := refetchReply.data;
      var cats := CategoriesOrEmpty(data);
      var cat := CategoryById(cats, selectedCategoryId);
      if cat.Some? {
        subCategories := cat.value.subCategories;
        var sub := SubCategoryByName(cat.value.subCategories, name);
        if sub.Some? {
          selectedSubCategoryId := sub.value.subCategoryId;
        }
      }
      newSubCategory := "";
    }

    /** `handleAddServingInfo` */
    method HandleAddServingInfo()
      modifies this`servingInfos
      ensures servingInfos == old(servingInfos) + [EmptyRow]
    {
      servingInfos := servingInfos + [EmptyRow];
    }

    /** `handleRemoveServingInfo` */
    method HandleRemoveServingInfo(index: int)
      modifies this`servingInfos
      ensures servingInfos == WithoutIndex(old(servingInfos), index)
    {
      servingInfos := WithoutIndex(servingInfos, index);
    }

    /** `handleChangeServingInfo`: split the path on ".", walk `temp` down
        all keys but the last from row `index`, then write the last key. A
        price path whose value fails the check, a TypeError, and a write
        outside the form's fields leave the rows as they were. */
    method HandleChangeServingInfo(index: int, field: string, value: string) returns (outcome: ChangeOutcome)
      modifies this`servingInfos
      ensures outcome == ChangeServingInfos(old(servingInfos), index, field, value)
      ensures servingInfos == (if outcome.Applied? then outcome.rows else old(servingInfos))
    {
      var rows := servingInfos;
      var keys := Split(field, '.');
      var temp := Start(rows, index);
      if IsPriceField(field) && !PriceFormat.IsFloat(value) {
        return PriceRejected;
      }
      var i := 0;
      while i < |keys| - 1
        invariant 0 <= i <= |keys| - 1
        invariant temp == Walk(Start(rows, index), keys[..i])
      {
        assert keys[..i + 1][..i] == keys[..i];
        temp := StepInto(temp, keys[i]);
        i := i + 1;
      }
      if temp == Stuck {
        return Threw;
      }
      match Assign(rows[index], temp, keys[i], value) {
        case Wrote(row) =>
          outcome := Applied(rows[index := row]);
          servingInfos := outcome.rows;
        case Stray =>
          outcome := StrayProperty;
        case Overwritten =>
          outcome := NutritionOverwritten;
      }
    }

    /** The description textarea's `onChange`. */
    method SetDescription(text: string)
      modifies this`description
      ensures description == ClampDescription(text)
    {
      description := ClampDescription(text);
    }

    /** `handleSubmit`: clear the message, build the payload, send it to
        the edit or create path; on success pass the server's dish to
        `updateDishList` and close, on failure show the error message. */
    method HandleSubmit(baseUrl: string, reply: Reply<Dish>)
      returns (request: Option<SubmitRequest>, passedOn: Option<Dish>, closed: bool)
      modifies this`backendMessage
      ensures var path := SubmitPath(baseUrl, mode, dish, selectedCategoryId, selectedSubCategoryId);
        request == (if path.Some? then Some(SubmitRequest(path.value, Payload(dishName, description, dish, servingInfos))) else None)
      ensures closed <==> request.Some? && reply.Ok?
      ensures passedOn == (if closed then Some(reply.data) else None)
      ensures request.None? ==> backendMessage == "Error updating dish. "
      ensures request.Some? && reply.Ok? ==> backendMessage == ""
      ensures request.Some? && reply.Err? ==> backendMessage == SubmitErrorMessage(mode, reply.failure)
    {
      backendMessage := "";
      var payload := Payload(dishName, description, dish, servingInfos);
      var path := SubmitPath(baseUrl, mode, dish, selectedCategoryId, selectedSubCategoryId);
      if path.None? {
        // reading `dish._id` throws before any request
        backendMessage := SubmitErrorMessage(mode, Unexpected("dish is undefined"));
        return None, None, false;
      }
      request := Some(SubmitRequest(path.value, payload));
      match reply {
        case Ok(saved) =>
          passedOn := Some(saved);
          closed := true;
        case Err(f) =>
          backendMessage := SubmitErrorMessage(mode, f);
          passedOn, closed := None, false;
      }
    }
  }
}
