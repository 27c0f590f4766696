/**
 * What `initialize` makes of the sensor's string-to-string parameters: the
 * three required values, checked in a fixed order, and the optional block
 * that sets up publication to a metadata server.
 */
module Config {
  import opened Wrappers
  import opened Strings
  import opened Externals
  import Template

  const ModelKey := "model"
  const WindowSizeKey := "window_size"
  const ErrorBoundKey := "error_bound"
  const MetadataServerKey := "metadata_server_url"
  const UserKey := "user"
  const PasswordKey := "password"
  const OperatorKey := "operator"
  const DeploymentKey := "deployment"
  const StationKey := "station"
  const SensorKey := "sensor"

  /** Why `initialize` returns false: the first required parameter that is absent or unusable. */
  datatype ConfigError =
    | ModelMissing | ModelUnknown
    | WindowSizeMissing | WindowSizeMalformed | WindowSizeNegative
    | ErrorBoundMissing | ErrorBoundMalformed

  /** The required settings once they are all accepted. */
  datatype Core = Core(model: int, windowSize: nat, errorBound: real)

  /**
   * The checks of `initialize`, in its order: model, then window size, then
   * error bound. Each value is trimmed before it is looked up or parsed.
   */
  function Validate(lib: Library, params: map<string, string>): Result<Core, ConfigError> {
    if ModelKey !in params then Failure(ModelMissing)
    else
      var model := lib.modelId(Trim(params[ModelKey]));
      if model == -1 then Failure(ModelUnknown)
      else if WindowSizeKey !in params then Failure(WindowSizeMissing)
      else match lib.parseInt(Trim(params[WindowSizeKey]))
        case None => Failure(WindowSizeMalformed)
        case Some(w) =>
          if w < 0 then Failure(WindowSizeNegative)
          else if ErrorBoundKey !in params then Failure(ErrorBoundMissing)
          else match lib.parseDouble(Trim(params[ErrorBoundKey]))
            case None => Failure(ErrorBoundMalformed)
            case Some(e) => Success(Core(model, w, e))
  }

  /** The required parameter an error is about: 0 model, 1 window size, 2 error bound. */
  function Stage(e: ConfigError): nat {
    match e
    case ModelMissing | ModelUnknown => 0
    case WindowSizeMissing | WindowSizeMalformed | WindowSizeNegative => 1
    case ErrorBoundMissing | ErrorBoundMalformed => 2
  }

  const RequiredKeys := [ModelKey, WindowSizeKey, ErrorBoundKey]

  /** `p` and `q` hold the same value, or both nothing, under `key`. */
  predicate SameEntry(p: map<string, string>, q: map<string, string>, key: string) {
    (key in p <==> key in q) && (key in p ==> p[key] == q[key])
  }

  /**
   * The first failing check decides: once validation fails at some required
   * parameter, nothing about the parameters checked after it changes the outcome.
   */
  lemma FirstFailureDecides(lib: Library, p: map<string, string>, q: map<string, string>)
    requires Validate(lib, p).Failure?
    requires forall k :: 0 <= k <= Stage(Validate(lib, p).error) ==> SameEntry(p, q, RequiredKeys[k])
    ensures Validate(lib, q) == Validate(lib, p)
  {
    assert SameEntry(p, q, RequiredKeys[0]);
    var e := Validate(lib, p).error;
    if Stage(e) >= 1 {
      assert SameEntry(p, q, RequiredKeys[1]);
    }
    if Stage(e) >= 2 {
      assert SameEntry(p, q, RequiredKeys[2]);
    }
  }

  /** `p` and `q` hold, under `key`, values that trim to the same string, or both nothing. */
  predicate SameTrimmed(p: map<string, string>, q: map<string, string>, key: string) {
    (key in p <==> key in q) && (key in p ==> Trim(p[key]) == Trim(q[key]))
  }

  /**
   * Only the trimmed values of the three required parameters decide whether
   * `initialize` succeeds, and with what: the metadata parameters never make it fail.
   */
  lemma OnlyRequiredKeysMatter(lib: Library, p: map<string, string>, q: map<string, string>)
    requires SameTrimmed(p, q, ModelKey) && SameTrimmed(p, q, WindowSizeKey) && SameTrimmed(p, q, ErrorBoundKey)
    ensures Validate(lib, q) == Validate(lib, p)
  {
  }

  /**
   * Validation succeeds exactly when all three values are present, the model
   * name is known, the window size parses to a number that is not negative and
   * the error bound parses; the settings are then those parsed values.
   */
  lemma ValidateAccepts(lib: Library, params: map<string, string>)
    ensures Validate(lib, params).Success? <==>
      ModelKey in params && WindowSizeKey in params && ErrorBoundKey in params &&
      lib.modelId(Trim(params[ModelKey])) != -1 &&
      lib.parseInt(Trim(params[WindowSizeKey])).Some? &&
      lib.parseInt(Trim(params[WindowSizeKey])).value >= 0 &&
      lib.parseDouble(Trim(params[ErrorBoundKey])).Some?
    ensures Validate(lib, params).Success? ==>
      Validate(lib, params).value == Core(lib.modelId(Trim(params[ModelKey])),
                                          lib.parseInt(Trim(params[WindowSizeKey])).value,
                                          lib.parseDouble(Trim(params[ErrorBoundKey])).value)
  {
    if ModelKey in params && WindowSizeKey in params && ErrorBoundKey in params {
      var m, w, e := Trim(params[ModelKey]), Trim(params[WindowSizeKey]), Trim(params[ErrorBoundKey]);
      assert Validate(lib, params) ==
        if lib.modelId(m) == -1 then Failure(ModelUnknown)
        else match lib.parseInt(w)
          case None => Failure(WindowSizeMalformed)
          case Some(n) =>
            if n < 0 then Failure(WindowSizeNegative)
            else match lib.parseDouble(e)
              case None => Failure(ErrorBoundMalformed)
              case Some(b) => Success(Core(lib.modelId(m), n, b));
    }
  }

  /** A window size of zero is accepted, and so is an error bound of any sign. */
  lemma ZeroWindowAndAnyBoundAccepted(lib: Library, params: map<string, string>, bound: real)
    requires ModelKey in params && WindowSizeKey in params && ErrorBoundKey in params
    requires lib.modelId(Trim(params[ModelKey])) != -1
    requires lib.parseInt(Trim(params[WindowSizeKey])) == Some(0)
    requires lib.parseDouble(Trim(params[ErrorBoundKey])) == Some(bound)
    ensures Validate(lib, params) == Success(Core(lib.modelId(Trim(params[ModelKey])), 0, bound))
  {
  }

  /** Blanks around a required value do not change the outcome: each is trimmed first. */
  lemma PaddingIgnored(lib: Library, params: map<string, string>, key: string, w1: string, w2: string)
    requires key in RequiredKeys && key in params
    requires AllBlank(w1) && AllBlank(w2)
    ensures Validate(lib, params[key := w1 + params[key] + w2]) == Validate(lib, params)
  {
    var padded := params[key := w1 + params[key] + w2];
    TrimIgnoresPadding(w1, params[key], w2);
    assert SameTrimmed(params, padded, ModelKey);
    assert SameTrimmed(params, padded, WindowSizeKey);
    assert SameTrimmed(params, padded, ErrorBoundKey);
    OnlyRequiredKeysMatter(lib, params, padded);
  }

  /** The three required fields of the sensor. */
  datatype Fields = Fields(model: int, windowSize: int, errorBound: real)

  /**
   * The required fields as `initialize` leaves them, whether it succeeds or
   * not: each field is assigned as soon as its value is looked up or parsed,
   * before the check that may reject it, and the later ones are not touched.
   */
  function AssignRequired(lib: Library, params: map<string, string>, prev: Fields): Fields {
    if ModelKey !in params then prev
    else
      var model := lib.modelId(Trim(params[ModelKey]));
      if model == -1 || WindowSizeKey !in params then prev.(model := model)
      else match lib.parseInt(Trim(params[WindowSizeKey]))
        case None => prev.(model := model)
        case Some(w) =>
          if w < 0 || ErrorBoundKey !in params then prev.(model := model, windowSize := w)
          else match lib.parseDouble(Trim(params[ErrorBoundKey]))
            case None => prev.(model := model, windowSize := w)
            case Some(e) => Fields(model, w, e)
  }

  /** On success the fields hold exactly the accepted settings, whatever they held before. */
  lemma AssignedOnSuccess(lib: Library, params: map<string, string>, prev: Fields)
    requires Validate(lib, params).Success?
    ensures var c := Validate(lib, params).value;
      AssignRequired(lib, params, prev) == Fields(c.model, c.windowSize, c.errorBound)
  {
  }

  /**
   * A failed `initialize` leaves the fields half-assigned: the fields of the
   * parameters before the failing one hold their new values, the failing one
   * holds the value that was rejected (an unknown model's -1, a negative window
   * size), and the error bound is never changed.
   */
  lemma FailureAssignsEarlierFields(lib: Library, params: map<string, string>, prev: Fields)
    requires Validate(lib, params).Failure?
    ensures var e, f := Validate(lib, params).error, AssignRequired(lib, params, prev);
      f.errorBound == prev.errorBound &&
      (e == ModelMissing ==> f == prev) &&
      (e == ModelUnknown ==> f == prev.(model := -1)) &&
      (Stage(e) >= 1 ==> f.model == lib.modelId(Trim(params[ModelKey]))) &&
      (Stage(e) == 2 ==> f.windowSize == lib.parseInt(Trim(params[WindowSizeKey])).value) &&
      (e == WindowSizeNegative ==> f.windowSize == lib.parseInt(Trim(params[WindowSizeKey])).value < 0) &&
      (e == WindowSizeMissing || e == WindowSizeMalformed ==> f.windowSize == prev.windowSize)
  {
    if ModelKey in params {
      var model := lib.modelId(Trim(params[ModelKey]));
      if model != -1 && WindowSizeKey in params {
        var w := lib.parseInt(Trim(params[WindowSizeKey]));
        if w.Some? && w.value >= 0 && ErrorBoundKey in params {
          var e := lib.parseDouble(Trim(params[ErrorBoundKey]));
          assert e.None?;
          assert AssignRequired(lib, params, prev) == prev.(model := model, windowSize := w.value);
        } else if w.Some? {
          assert Validate(lib, params) == Failure(if w.value < 0 then WindowSizeNegative else ErrorBoundMissing);
          assert AssignRequired(lib, params, prev) == prev.(model := model, windowSize := w.value);
        } else {
          assert Validate(lib, params) == Failure(WindowSizeMalformed);
          assert AssignRequired(lib, params, prev) == prev.(model := model);
        }
      } else {
        assert Validate(lib, params) == Failure(if model == -1 then ModelUnknown else WindowSizeMissing);
        assert AssignRequired(lib, params, prev) == prev.(model := model);
      }
    }
  }

  /**
   * The metadata-publication fields of the sensor. `prepared` is the request
   * with the identity placeholders already replaced.
   */
  datatype Publication = Publication(
    url: Option<string>,
    user: Option<string>, password: Option<string>,
    operator: Option<string>, deployment: Option<string>, station: Option<string>, sensor: Option<string>,
    publish: bool, requiresPassword: bool, prepared: Option<string>)

  /** The fields before `initialize`: nothing set, publication off. */
  const NoPublication := Publication(None, None, None, None, None, None, None, false, false, None)

  function Lookup(params: map<string, string>, key: string): Option<string> {
    if key in params then Some(params[key]) else None
  }

  /** All four identity values are given. */
  predicate IdentityComplete(params: map<string, string>) {
    OperatorKey in params && DeploymentKey in params && StationKey in params && SensorKey in params
  }

  /**
   * The metadata block of `initialize`. The server URL field is always
   * overwritten; the rest only when a URL is given. Publication is then on
   * exactly when all four identity values are given, in which case the request
   * is pre-rendered. The password flag is only ever raised, never cleared.
   */
  function ConfigurePublication(prev: Publication, params: map<string, string>): Publication {
    var url := Lookup(params, MetadataServerKey);
    if url.None? then prev.(url := None)
    else
      var user := Lookup(params, UserKey);
      var password := Lookup(params, PasswordKey);
      var complete := IdentityComplete(params);
      Publication(
        url, user, password,
        Lookup(params, OperatorKey), Lookup(params, DeploymentKey), Lookup(params, StationKey), Lookup(params, SensorKey),
        complete,
        prev.requiresPassword || (user.Some? && password.Some?),
        if complete then
          Some(Template.PrepareRequest(params[OperatorKey], params[DeploymentKey], params[StationKey], params[SensorKey]))
        else prev.prepared)
  }

  /** Publication is on only with a prepared request to fill. */
  predicate Consistent(pub: Publication) {
    pub.publish ==> pub.prepared.Some?
  }

  /**
   * From the fields before `initialize`, publication ends up on exactly when
   * the server URL and all four identity values are given, and the request is
   * then the template with those four values; the password flag is raised
   * exactly when the URL, the user and the password are all given.
   */
  lemma PublicationFromScratch(params: map<string, string>)
    ensures var pub := ConfigurePublication(NoPublication, params);
      (pub.publish <==> MetadataServerKey in params && IdentityComplete(params)) &&
      (pub.publish ==> pub.prepared == Some(Template.PrepareRequest(
        params[OperatorKey], params[DeploymentKey], params[StationKey], params[SensorKey]))) &&
      (!pub.publish ==> pub.prepared == None) &&
      (pub.requiresPassword <==> MetadataServerKey in params && UserKey in params && PasswordKey in params)
  {
  }

  /** A missing identity value turns publication off but keeps the rest of the block. */
  lemma IncompleteIdentityDisablesPublishing(prev: Publication, params: map<string, string>)
    requires MetadataServerKey in params && !IdentityComplete(params)
    ensures var pub := ConfigurePublication(prev, params);
      !pub.publish && pub.url == Some(params[MetadataServerKey]) && pub.prepared == prev.prepared
  {
  }

  /** The metadata block keeps publication consistent with the prepared request. */
  lemma ConfigureKeepsConsistent(prev: Publication, params: map<string, string>)
    requires Consistent(prev)
    ensures Consistent(ConfigurePublication(prev, params))
  {
  }
}
