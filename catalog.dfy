/** The documents the REST API sends back, with every field the
    components read. Optional fields are `Option`s; timestamps are
    integers. */
module Catalog {
  import opened Values

  datatype Restaurant = Restaurant(
    id: string,
    restaurantName: string,
    logo: Option<string>,
    createdAt: int,
    updatedAt: Option<int>)

  datatype SubCategory = SubCategory(subCategoryId: string, subCategoryName: string)

  datatype Category = Category(categoryId: string, categoryName: string, subCategories: seq<SubCategory>)

  /** A nutrition value as stored: `{ value, unit }`. */
  datatype Measure = Measure(value: Option<Scalar>, unit: Option<string>)

  datatype NutritionFacts = NutritionFacts(
    calories: Option<Measure>,
    protein: Option<Measure>,
    carbs: Option<Measure>,
    totalFat: Option<Measure>)

  datatype ServingInfo = ServingInfo(
    size: Option<string>,
    price: Option<Scalar>,
    nutritionFacts: Option<NutritionFacts>)

  /** One element of `dish.servingInfos`: `{ servingInfo: {...} }`. */
  datatype ServingEntry = ServingEntry(servingInfo: Option<ServingInfo>)

  datatype Dish = Dish(
    id: string,
    dishName: Option<string>,
    description: Option<string>,
    categoryId: Option<string>,
    subCategoryId: Option<string>,
    servingInfos: Option<seq<ServingEntry>>,
    createdAt: Option<int>,
    updatedAt: int)

  /** The body of `GET /api/restaurants/allDishes/{restaurantId}`. */
  datatype AllDishes = AllDishes(
    dishes: Option<seq<Dish>>,
    categories: Option<seq<Category>>,
    restaurantName: Option<string>)  // data.restaurant?.name

  /** `data.categories || []` */
  function CategoriesOrEmpty(data: AllDishes): seq<Category>
  {
    if data.categories.Some? then data.categories.value else []
  }
}
