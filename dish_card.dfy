/** A dish card: which serving is shown, which size buttons are
    highlighted, and the text helpers with their "N/A" fallbacks. */
module DishCard {
  import opened Values
  import opened Text
  import opened Catalog

  // ---------------------------------------------------------------------
  // The serving selector

  /** `dish.servingInfos?.[0]?.servingInfo || null` */
  function InitialSelection(dish: Dish): (r: Option<ServingInfo>)
    ensures r.Some? <==> dish.servingInfos.Some? && |dish.servingInfos.value| > 0 && dish.servingInfos.value[0].servingInfo.Some?
    ensures r.Some? ==> r == dish.servingInfos.value[0].servingInfo
  {
    match dish.servingInfos
    case None => None
    case Some(entries) => if |entries| == 0 then None else entries[0].servingInfo
  }

  /** `selectedServingInfo?.size === info.servingInfo.size`. With nothing
      selected the left side is `undefined`, which equals a missing size. */
  predicate IsHighlighted(selected: Option<ServingInfo>, entry: ServingEntry)
    requires entry.servingInfo.Some?
  {
    (if selected.Some? then selected.value.size else None) == entry.servingInfo.value.size
  }

  /** After choosing a serving, exactly the buttons showing the same size
      (the chosen one and every duplicate) are highlighted. */
  lemma ChosenSizeHighlighted(chosen: ServingEntry, entries: seq<ServingEntry>)
    requires chosen.servingInfo.Some?
    requires forall e :: e in entries ==> e.servingInfo.Some?
    ensures IsHighlighted(chosen.servingInfo, chosen)
    ensures forall e :: e in entries ==>
      (IsHighlighted(chosen.servingInfo, e) <==> e.servingInfo.value.size == chosen.servingInfo.value.size)
  {
  }

  /** The card's one piece of state: the serving whose facts it shows. */
  class ServingSelector {
    var selected: Option<ServingInfo>

    constructor (dish: Dish)
      ensures selected == InitialSelection(dish)
    {
      selected := InitialSelection(dish);
    }

    /** `handleServingSizeChange(info)` */
    method HandleServingSizeChange(entry: ServingEntry)
      modifies this
      ensures selected == entry.servingInfo
    {
      selected := entry.servingInfo;
    }
  }

  // ---------------------------------------------------------------------
  // Text helpers

  const WordLimit: nat := 150

  /** `truncateDescription(text)`: at most 150 space-separated words. */
  function TruncateDescription(text: string): string
  {
    var words := Split(text, ' ');
    if |words| > WordLimit then Join(words[..WordLimit], ' ') + "..." else text
  }

  /** Up to 150 words the text is shown as it is; past that the card shows
      a prefix of the text ending after the 150th word, then "...". */
  lemma TruncateDescriptionProperties(text: string)
    ensures |Split(text, ' ')| <= WordLimit ==> TruncateDescription(text) == text
    ensures |Split(text, ' ')| > WordLimit ==>
      var kept := Join(Split(text, ' ')[..WordLimit], ' ');
      TruncateDescription(text) == kept + "..." && kept <= text && |kept| < |text|
  {
    var words := Split(text, ' ');
    if |words| > WordLimit {
      JoinSplit(text, ' ');
      JoinPrefix(words, WordLimit, ' ');
      JoinPrefix(words, WordLimit + 1, ' ');
      var kept := Join(words[..WordLimit], ' ');
      var longer := Join(words[..WordLimit + 1], ' ');
      assert words[..WordLimit + 1][..WordLimit] == words[..WordLimit];
      JoinAppendOne(words[..WordLimit], words[WordLimit], ' ');
      assert words[..WordLimit + 1] == words[..WordLimit] + [words[WordLimit]];
      assert |kept| < |longer|;
    }
  }

  /** Joining one more piece adds the separator and that piece. */
  lemma {:induction false} JoinAppendOne(ws: seq<string>, w: string, c: char)
    requires |ws| >= 1
    ensures Join(ws + [w], c) == Join(ws, c) + [c] + w
  {
    if |ws| == 1 {
      assert (ws + [w])[1..] == [w];
    } else {
      assert (ws + [w])[1..] == ws[1..] + [w];
      JoinAppendOne(ws[1..], w, c);
    }
  }

  /** `size.slice(0, 5)`: the compact label on a size button. */
  function SizeLabel(size: string): (r: string)
    ensures |r| <= 5 && r <= size
    ensures |size| <= 5 ==> r == size
  {
    Take(size, 5)
  }

  /** `v || "N/A"` */
  function DisplayValue(v: Option<Scalar>): (r: Scalar)
    ensures Truthy(v) ==> r == v.value
    ensures !Truthy(v) ==> r == Str("N/A")
    ensures ScalarTruthy(r)
  {
    if Truthy(v) then v.value else Str("N/A")
  }

  /** `u || ""` for a unit. */
  function DisplayUnit(u: Option<string>): (r: string)
    ensures u.Some? && u.value != "" ==> r == u.value
    ensures u.None? || u.value == "" ==> r == ""
  {
    OrEmpty(u)
  }

  /** `selected?.nutritionFacts?.<name>` */
  function SelectedMeasure(selected: Option<ServingInfo>, name: string): Option<Measure>
  {
    if selected.None? || selected.value.nutritionFacts.None? then None
    else
      var f := selected.value.nutritionFacts.value;
      if name == "calories" then f.calories
      else if name == "protein" then f.protein
      else if name == "carbs" then f.carbs
      else if name == "totalFat" then f.totalFat
      else None
  }

  /** The value shown in a nutrition tile. */
  function NutrientText(selected: Option<ServingInfo>, name: string): Scalar
  {
    var m := SelectedMeasure(selected, name);
    DisplayValue(if m.Some? then m.value.value else None)
  }

  /** The unit shown after a tile's value. */
  function NutrientUnit(selected: Option<ServingInfo>, name: string): string
  {
    var m := SelectedMeasure(selected, name);
    DisplayUnit(if m.Some? then m.value.unit else None)
  }

  /** The value shown on the price strip. */
  function PriceText(selected: Option<ServingInfo>): Scalar
  {
    DisplayValue(if selected.Some? then selected.value.price else None)
  }

  /** With no serving selected every tile and the price read "N/A", and
      no unit follows a tile's value. */
  lemma NothingSelectedShowsNA(name: string)
    ensures NutrientText(None, name) == Str("N/A") && PriceText(None) == Str("N/A")
    ensures NutrientUnit(None, name) == ""
  {
  }

  /** A price of 0 is falsy and reads "N/A" as well. */
  lemma ZeroShowsNA(info: ServingInfo)
    requires info.price == Some(Num(0.0))
    ensures PriceText(Some(info)) == Str("N/A")
  {
  }

  /** What `formatDate` gives: "N/A" for a falsy date, else the locale
      rendering of the timestamp. */
  datatype DateText = NotAvailable | Formatted(timestamp: int)

  function FormatDate(date: Option<int>): (r: DateText)
    ensures r.NotAvailable? <==> date.None?
    ensures r.Formatted? ==> r.timestamp == date.value
  {
    if date.None? then NotAvailable else Formatted(date.value)
  }

  // ---------------------------------------------------------------------
  // The card

  /** A serving entry the size buttons can show: the button reads
      `info.servingInfo.size` and calls `slice` on it, so an entry without
      `servingInfo` or without a size makes the render throw. */
  predicate Showable(entry: ServingEntry)
  {
    entry.servingInfo.Some? && entry.servingInfo.value.size.Some?
  }

  /** One size button: its `title`, its caption and whether it is
      highlighted. */
  datatype SizeButton = SizeButton(title: string, caption: string, highlighted: bool)

  /** One nutrition tile: the value, then the unit. */
  datatype Tile = Tile(value: Scalar, unit: string)

  /** The nutrients of the four tiles, in display order. */
  const TileNutrients: seq<string> := ["calories", "protein", "carbs", "totalFat"]

  datatype CardView =
    | NoServingFallback
    | RenderThrows
    | Card(dishName: string, description: string, buttons: seq<SizeButton>, tiles: seq<Tile>,
           price: Scalar, created: DateText, updated: DateText)

  const DefaultDishName := "Dish Name"
  const DefaultDescription := "No description provided"

  function ButtonOf(selected: Option<ServingInfo>, entry: ServingEntry): SizeButton
    requires Showable(entry)
  {
    var size := entry.servingInfo.value.size.value;
    SizeButton(size, SizeLabel(size), IsHighlighted(selected, entry))
  }

  /** `servingInfos.map(...)`: one button per serving, titled with its
      size, captioned with at most its first five characters, and
      highlighted exactly when a serving is selected and has that size. */
  function Buttons(selected: Option<ServingInfo>, entries: seq<ServingEntry>): (r: seq<SizeButton>)
    requires forall i :: 0 <= i < |entries| ==> Showable(entries[i])
    ensures |r| == |entries|
    ensures forall i :: 0 <= i < |entries| ==>
      Showable(entries[i])
      && r[i].title == entries[i].servingInfo.value.size.value
      && r[i].caption <= r[i].title && |r[i].caption| <= 5
      && (r[i].highlighted <==> selected.Some? && selected.value.size == entries[i].servingInfo.value.size)
  {
    seq(|entries|, i requires 0 <= i < |entries| => ButtonOf(selected, entries[i]))
  }

  /** The four nutrition tiles. */
  function Tiles(selected: Option<ServingInfo>): (r: seq<Tile>)
    ensures |r| == |TileNutrients|
    ensures forall k :: 0 <= k < |r| ==>
      r[k] == Tile(NutrientText(selected, TileNutrients[k]), NutrientUnit(selected, TileNutrients[k]))
  {
    seq(|TileNutrients|, k requires 0 <= k < |TileNutrients| =>
      Tile(NutrientText(selected, TileNutrients[k]), NutrientUnit(selected, TileNutrients[k])))
  }

  /** The description shown, after the default and the word limit. */
  function DescriptionOf(dish: Dish): (r: string)
    ensures dish.description.None? ==> r == DefaultDescription
  {
    ShortTextShownWhole(DefaultDescription);
    TruncateDescription(if dish.description.Some? then dish.description.value else DefaultDescription)
  }

  /** The entries of `servingInfos`, `[]` when it is missing. */
  function Entries(dish: Dish): seq<ServingEntry>
  {
    if dish.servingInfos.Some? then dish.servingInfos.value else []
  }

  /** What the card renders for a dish and the current selection. The
      destructuring defaults apply to missing fields; the serving list is
      read only when it is non-empty. */
  function CardOf(dish: Dish, selected: Option<ServingInfo>): CardView
  {
    var servings := Entries(dish);
    if |servings| == 0 then NoServingFallback
    else if exists i :: 0 <= i < |servings| && !Showable(servings[i]) then RenderThrows
    else Card(
      if dish.dishName.Some? then dish.dishName.value else DefaultDishName,
      DescriptionOf(dish),
      Buttons(selected, servings),
      Tiles(selected),
      PriceText(selected),
      FormatDate(dish.createdAt),
      FormatDate(Some(dish.updatedAt)))
  }

  /** The fallback shows exactly when the dish has no servings, and the
      render throws exactly when some serving lacks its info or its size. */
  lemma CardOutcome(dish: Dish, selected: Option<ServingInfo>)
    ensures CardOf(dish, selected).NoServingFallback? <==> |Entries(dish)| == 0
    ensures CardOf(dish, selected).RenderThrows? <==>
      |Entries(dish)| > 0 && exists i :: 0 <= i < |Entries(dish)| && !Showable(Entries(dish)[i])
  {
  }

  /** A rendered card shows every serving, each with a size: one button per
      serving as Buttons states, four tiles, and the default texts for
      missing fields. */
  lemma CardShape(dish: Dish, selected: Option<ServingInfo>)
    ensures CardOf(dish, selected).Card? ==>
      var c := CardOf(dish, selected);
      (forall i :: 0 <= i < |Entries(dish)| ==> Showable(Entries(dish)[i]))
      && c.buttons == Buttons(selected, Entries(dish)) && |c.tiles| == 4
      && (dish.dishName.None? ==> c.dishName == DefaultDishName)
      && (dish.description.None? ==> c.description == DefaultDescription)
  {
  }

  /** On a rendered card with nothing selected no size button is
      highlighted, every tile reads "N/A" with no unit, and so does the
      price. */
  lemma NothingSelectedCard(dish: Dish)
    ensures CardOf(dish, None).Card? ==>
      var c := CardOf(dish, None);
      (forall i :: 0 <= i < |c.buttons| ==> !c.buttons[i].highlighted)
      && (forall k :: 0 <= k < |c.tiles| ==> c.tiles[k] == Tile(Str("N/A"), ""))
      && c.price == Str("N/A")
  {
    if CardOf(dish, None).Card? {
      var c := CardOf(dish, None);
      forall k | 0 <= k < |c.tiles|
        ensures c.tiles[k] == Tile(Str("N/A"), "")
      {
        NothingSelectedShowsNA(TileNutrients[k]);
      }
    }
  }

  /** A text shorter than 150 characters has at most 150 words, so it is
      shown whole. */
  lemma ShortTextShownWhole(text: string)
    requires |text| < WordLimit
    ensures TruncateDescription(text) == text
  {
    SplitLength(text, ' ');
  }
}
