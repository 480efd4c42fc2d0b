/** The add/edit restaurant popup: the logo type whitelist, the guards in
    front of the request, the multipart form it sends, and the ordered
    classification of a failed request into a message. */
module RestaurantForm {
  import opened Values
  import opened Http
  import opened Catalog

  /** A file picked in the logo input. */
  datatype File = File(name: string, mimeType: string)

  const AllowedLogoTypes: seq<string> := ["image/png", "image/jpeg", "image/jpg", "image/webp"]

  const NameRequired := "Restaurant name is required."
  const IdRequired := "Restaurant ID is required for editing."
  const InvalidMode := "Invalid mode specified."
  const LogoTypeRejected := "Only .png, .jpg, .jpeg, and .webp files are allowed."
  const NotFound := "Resource not found."
  const NetworkError := "Network error. Please check your internet connection."
  const UnexpectedError := "An unexpected error occurred."

  /** The message a failed request shows: the body's message, then a 404
      text, then the status text; a request without response is a network
      error; anything else is unexpected. */
  function ClassifyError(f: Failure): string
  {
    match f
    case HttpError(status, body, statusText, _) =>
      if StrTruthy(body.message) then body.message.value
      else if status == 404 then NotFound
      else "Server error: " + statusText
    case NoResponse(_) => NetworkError
    case Unexpected(_) => UnexpectedError
  }

  /** A failure always yields a message, and each rule applies only when
      every earlier one did not. */
  lemma ClassifyErrorOrder(f: Failure)
    ensures ClassifyError(f) != ""
    ensures f.HttpError? && StrTruthy(f.body.message) ==> ClassifyError(f) == f.body.message.value
    ensures f.HttpError? && !StrTruthy(f.body.message) && f.status == 404 ==> ClassifyError(f) == NotFound
    ensures f.HttpError? && !StrTruthy(f.body.message) && f.status != 404 ==>
      ClassifyError(f) == "Server error: " + f.statusText
    ensures f.NoResponse? <==> ClassifyError(f) == NetworkError && !f.HttpError?
    ensures f.Unexpected? <==> ClassifyError(f) == UnexpectedError && !f.HttpError?
  {
  }

  /** One entry of the multipart body. */
  datatype FormField = NameField(value: string) | LogoField(file: File) | IdField(id: string)

  datatype RestaurantRequest =
    | CreateRestaurant(url: string, form: seq<FormField>)
    | EditRestaurant(url: string, form: seq<FormField>)

  /** What `handleSubmit` decides before awaiting a reply: a message and
      no request, or a request. */
  datatype Plan = Refuse(message: string) | Send(request: RestaurantRequest)

  /** The name, then the logo when one is set. */
  function BaseForm(name: string, logo: Option<File>): seq<FormField>
  {
    [NameField(name)] + (if logo.Some? then [LogoField(logo.value)] else [])
  }

  function SubmitPlan(baseUrl: string, mode: string, restaurant: Option<Restaurant>, name: string, logo: Option<File>): Plan
  {
    if name == "" then Refuse(NameRequired)
    else if mode == "edit" then
      if restaurant.None? then Refuse(ClassifyError(Unexpected("restaurant is null")))
      else if restaurant.value.id == "" then Refuse(IdRequired)
      else Send(EditRestaurant(baseUrl + "/api/restaurants/editRestaurant/" + restaurant.value.id,
                               BaseForm(name, logo) + [IdField(restaurant.value.id)]))
    else if mode == "add" then Send(CreateRestaurant(baseUrl + "/api/restaurants/createRestaurant", BaseForm(name, logo)))
    else Refuse(InvalidMode)
  }

  /** The guards: only an empty name is refused for its name (a name of
      spaces passes), an edit needs a restaurant with an id, and only the
      modes "add" and "edit" send anything. */
  lemma SubmitGuards(baseUrl: string, mode: string, restaurant: Option<Restaurant>, name: string, logo: Option<File>)
    ensures var p := SubmitPlan(baseUrl, mode, restaurant, name, logo);
      (p.Send? <==> name != "" && (mode == "add" || (mode == "edit" && restaurant.Some? && restaurant.value.id != "")))
      && (name == "" ==> p == Refuse(NameRequired))
      && (name != "" && mode == "edit" && restaurant.Some? && restaurant.value.id == "" ==> p == Refuse(IdRequired))
      && (name != "" && mode == "edit" && restaurant.None? ==> p == Refuse(UnexpectedError))
      && (name != "" && mode != "add" && mode != "edit" ==> p == Refuse(InvalidMode))
  {
  }

  /** The form carries the name first, the logo exactly when one is set,
      and the id exactly in edit mode, as the last entry. */
  lemma SubmitForm(baseUrl: string, mode: string, restaurant: Option<Restaurant>, name: string, logo: Option<File>)
    requires SubmitPlan(baseUrl, mode, restaurant, name, logo).Send?
    ensures var form := SubmitPlan(baseUrl, mode, restaurant, name, logo).request.form;
      form[0] == NameField(name)
      && ((exists f :: f in form && f.LogoField?) <==> logo.Some?)
      && (logo.Some? ==> LogoField(logo.value) in form)
      && ((exists f :: f in form && f.IdField?) <==> mode == "edit")
      && (mode == "edit" ==> form[|form| - 1] == IdField(restaurant.value.id))
  {
    var form := SubmitPlan(baseUrl, mode, restaurant, name, logo).request.form;
    if logo.Some? {
      assert form[1] == LogoField(logo.value);
    }
    if mode == "edit" {
      assert form[|form| - 1].IdField?;
    }
  }

  /** The popup's state. `restaurant` and `mode` are props. */
  class RestaurantFormState {
    const restaurant: Option<Restaurant>
    const mode: string
    var restaurantName: string
    var logo: Option<File>
    var error: string

    constructor (restaurant: Option<Restaurant>, mode: string)
      ensures this.restaurant == restaurant && this.mode == mode
      ensures restaurantName == (if restaurant.Some? then restaurant.value.restaurantName else "")
      ensures logo == None && error == ""
    {
      this.restaurant := restaurant;
      this.mode := mode;
      restaurantName := if restaurant.Some? then restaurant.value.restaurantName else "";
      logo := None;
      error := "";
    }

    /** `handleFileChange`: no file clears the logo and keeps the error; a
        whitelisted type clears the error and keeps the file; any other
        type sets the error and clears the logo. */
    method HandleFileChange(file: Option<File>)
      modifies this`logo, this`error
      ensures file.None? ==> logo == None && error == old(error)
      ensures file.Some? && file.value.mimeType in AllowedLogoTypes ==> logo == file && error == ""
      ensures file.Some? && file.value.mimeType !in AllowedLogoTypes ==> logo == None && error == LogoTypeRejected
    {
      if file.None? {
        logo := None;
        return;
      }
      if file.value.mimeType !in AllowedLogoTypes {
        error := LogoTypeRejected;
        logo := None;
      } else {
        error := "";
        logo := file;
      }
    }

    /** `handleSubmit`: the guards, the request, and on failure the
        classified message; on success the server's restaurant goes to
        the page's `updateRestaurantList` and the popup closes. */
    method HandleSubmit(baseUrl: string, reply: Reply<Restaurant>)
      returns (request: Option<RestaurantRequest>, passedOn: Option<Restaurant>, closed: bool)
      modifies this`error
      ensures var p := SubmitPlan(baseUrl, mode, restaurant, restaurantName, logo);
        request == (if p.Send? then Some(p.request) else None)
        && (p.Refuse? ==> error == p.message)
      ensures closed <==> request.Some? && reply.Ok?
      ensures passedOn == (if closed then Some(reply.data) else None)
      ensures request.Some? && reply.Ok? ==> error == ""
      ensures request.Some? && reply.Err? ==> error == ClassifyError(reply.failure)
    {
      closed, passedOn := false, None;
      if restaurantName == "" {
        error := NameRequired;
        return None, None, false;
      }
      error := "";
      var form := BaseForm(restaurantName, logo);
      if mode == "edit" {
        if restaurant.None? {
          // reading `restaurant._id` throws inside the try block
          error := ClassifyError(Unexpected("restaurant is null"));
          return None, None, false;
        }
        if restaurant.value.id == "" {
          error := IdRequired;
          return None, None, false;
        }
        form := form + [IdField(restaurant.value.id)];
        request := Some(EditRestaurant(baseUrl + "/api/restaurants/editRestaurant/" + restaurant.value.id, form));
      } else if mode == "add" {
        request := Some(CreateRestaurant(baseUrl + "/api/restaurants/createRestaurant", form));
      } else {
        error := InvalidMode;
        return None, None, false;
      }
      match reply {
        case Ok(saved) =>
          passedOn := Some(saved);
          closed := true;
        case Err(f) =>
          error := ClassifyError(f);
      }
    }
  }
}
