/**
 * The data-cleaning virtual sensor: configured once by `Initialize`, then fed
 * one stream element at a time by `DataAvailable`, which buffers a window of
 * values, has the model fitted over it, emits the cleaned records and builds a
 * metadata request for every dirty point.
 */
module DataClean {
  import opened Wrappers
  import opened Strings
  import opened Externals
  import opened Config
  import opened Buffering
  import Template

  class DataCleanVirtualSensor {
    /** The library calls the sensor makes, fixed for its lifetime. */
    const lib: Library

    var model: int
    var windowSize: int
    var errorBound: real

    var stream: array<real>
    var timestamps: array<int>
    var processed: array<real>
    var dirtiness: array<real>

    var metadataServerUrl: Option<string>
    var username: Option<string>
    var password: Option<string>
    var operator: Option<string>
    var deployment: Option<string>
    var station: Option<string>
    var sensor: Option<string>
    var preparedXmlRequest: Option<string>
    var publishToMetadataServer: bool
    var metadataServerRequiresPassword: bool

    var bufferCount: nat

    /** `Initialize` last returned true. */
    ghost var initialized: bool
    /** Every stream element handed to `dataProduced`, in order. */
    ghost var produced: seq<Record>
    /** Every metadata request built for the server, in order. */
    ghost var posted: seq<string>

    /** Ready for `DataAvailable`: configured, with four buffers of the window's size. */
    ghost predicate Valid()
      reads this`initialized, this`windowSize, this`stream, this`timestamps, this`processed, this`dirtiness
    {
      initialized && 0 <= windowSize &&
      stream.Length == windowSize && timestamps.Length == windowSize &&
      processed.Length == windowSize && dirtiness.Length == windowSize &&
      stream != processed && stream != dirtiness && processed != dirtiness
    }

    function AsFields(): Fields
      reads this`model, this`windowSize, this`errorBound
    {
      Fields(model, windowSize, errorBound)
    }

    function AsPublication(): Publication
      reads this`metadataServerUrl, this`username, this`password
      reads this`operator, this`deployment, this`station, this`sensor
      reads this`preparedXmlRequest, this`publishToMetadataServer, this`metadataServerRequiresPassword
    {
      Publication(metadataServerUrl, username, password, operator, deployment, station, sensor,
                  publishToMetadataServer, metadataServerRequiresPassword, preparedXmlRequest)
    }

    function AsSettings(): Settings
      requires 0 <= windowSize
      reads this`model, this`windowSize, this`errorBound, this`publishToMetadataServer, this`preparedXmlRequest
    {
      Settings(model, windowSize, errorBound, publishToMetadataServer, preparedXmlRequest)
    }

    function AsBuffers(): Buffers
      reads this`bufferCount, this`stream, this`timestamps, this`processed, this`dirtiness
      reads stream, timestamps, processed, dirtiness
    {
      Buffers(bufferCount, stream[..], timestamps[..], processed[..], dirtiness[..])
    }

    /** A sensor before `initialize`: no model, an empty window, publication off. */
    constructor (lib: Library)
      ensures this.lib == lib && !initialized
      ensures AsFields() == Fields(-1, 0, 0.0) && AsPublication() == NoPublication
      ensures bufferCount == 0 && produced == [] && posted == []
    {
      this.lib := lib;
      model := -1;
      windowSize := 0;
      errorBound := 0.0;
      stream := new real[0];
      timestamps := new int[0];
      processed := new real[0];
      dirtiness := new real[0];
      metadataServerUrl, username, password := None, None, None;
      operator, deployment, station, sensor := None, None, None, None;
      preparedXmlRequest := None;
      publishToMetadataServer, metadataServerRequiresPassword := false, false;
      bufferCount := 0;
      initialized := false;
      produced, posted := [], [];
    }

    /**
     * `initialize`: succeeds exactly when the required parameters are valid,
     * assigning each required field as it goes. On success the metadata block
     * is applied and four zeroed buffers of the window's size are allocated; on
     * failure neither happens. The fill counter is never reset.
     */
    method Initialize(params: map<string, string>) returns (ok: bool)
      modifies this`model, this`windowSize, this`errorBound, this`initialized
      modifies this`stream, this`timestamps, this`processed, this`dirtiness
      modifies this`metadataServerUrl, this`username, this`password
      modifies this`operator, this`deployment, this`station, this`sensor
      modifies this`preparedXmlRequest, this`publishToMetadataServer, this`metadataServerRequiresPassword
      ensures ok == Validate(lib, params).Success?
      ensures AsFields() == AssignRequired(lib, params, old(AsFields()))
      ensures ok ==> Valid() && fresh(stream) && fresh(timestamps) && fresh(processed) && fresh(dirtiness)
      ensures ok ==> AsPublication() == ConfigurePublication(old(AsPublication()), params)
      ensures ok ==> forall j :: 0 <= j < windowSize ==>
        stream[j] == 0.0 && timestamps[j] == 0 && processed[j] == 0.0 && dirtiness[j] == 0.0
      ensures !ok ==> !initialized && AsPublication() == old(AsPublication())
      ensures !ok ==> stream == old(stream) && timestamps == old(timestamps) &&
                      processed == old(processed) && dirtiness == old(dirtiness)
    {
      ok := ReadRequired(params);
      if !ok {
        initialized := false;
        return;
      }
      ConfigureMetadata(params);

      AllocateBuffers();
      initialized := true;
    }

    /** The four buffers of `initialize`: new arrays of the window's size, zeroed as Java allocates them. */
    method AllocateBuffers()
      requires 0 <= windowSize
      modifies this`stream, this`timestamps, this`processed, this`dirtiness
      ensures fresh(stream) && fresh(timestamps) && fresh(processed) && fresh(dirtiness)
      ensures stream != processed && stream != dirtiness && processed != dirtiness
      ensures stream.Length == windowSize && timestamps.Length == windowSize
      ensures processed.Length == windowSize && dirtiness.Length == windowSize
      ensures forall j :: 0 <= j < windowSize ==>
        stream[j] == 0.0 && timestamps[j] == 0 && processed[j] == 0.0 && dirtiness[j] == 0.0
    {
      stream := new real[windowSize](_ => 0.0);
      timestamps := new int[windowSize](_ => 0);
      processed := new real[windowSize](_ => 0.0);
      dirtiness := new real[windowSize](_ => 0.0);
    }

    /**
     * The required-parameter checks of `initialize`, in its order. Each field
     * is assigned as soon as its value is obtained, so a later rejection
     * leaves the earlier fields (and a rejected window size) changed.
     */
    method ReadRequired(params: map<string, string>) returns (ok: bool)
      modifies this`model, this`windowSize, this`errorBound
      ensures ok == Validate(lib, params).Success?
      ensures AsFields() == AssignRequired(lib, params, old(AsFields()))
      ensures ok ==> windowSize >= 0
    {
      if ModelKey !in params {
        return false;
      }
      model := lib.modelId(Trim(params[ModelKey]));
      if model == -1 {
        return false;
      }
      if WindowSizeKey !in params {
        return false;
      }
      var w := lib.parseInt(Trim(params[WindowSizeKey]));
      if w.None? {
        return false;
      }
      windowSize := w.value;
      if windowSize < 0 {
        return false;
      }
      if ErrorBoundKey !in params {
        return false;
      }
      var e := lib.parseDouble(Trim(params[ErrorBoundKey]));
      if e.None? {
        return false;
      }
      errorBound := e.value;
      return true;
    }

    /** The metadata block of `initialize`, reached once the required parameters are accepted. */
    method ConfigureMetadata(params: map<string, string>)
      modifies this`metadataServerUrl, this`username, this`password
      modifies this`operator, this`deployment, this`station, this`sensor
      modifies this`preparedXmlRequest, this`publishToMetadataServer, this`metadataServerRequiresPassword
      ensures AsPublication() == ConfigurePublication(old(AsPublication()), params)
    {
      metadataServerUrl := Lookup(params, MetadataServerKey);
      if metadataServerUrl.Some? {
        publishToMetadataServer := true;
        username := Lookup(params, UserKey);
        password := Lookup(params, PasswordKey);
        if username.Some? && password.Some? {
          metadataServerRequiresPassword := true;
        }
        ConfigureIdentity(params);
      }
    }

    /** The identity values of the metadata block; publication stays on only when all four are given. */
    method ConfigureIdentity(params: map<string, string>)
      modifies this`operator, this`deployment, this`station, this`sensor
      modifies this`preparedXmlRequest, this`publishToMetadataServer
      ensures operator == Lookup(params, OperatorKey) && deployment == Lookup(params, DeploymentKey)
      ensures station == Lookup(params, StationKey) && sensor == Lookup(params, SensorKey)
      ensures publishToMetadataServer == (old(publishToMetadataServer) && IdentityComplete(params))
      ensures preparedXmlRequest == if IdentityComplete(params)
        then Some(Template.PrepareRequest(params[OperatorKey], params[DeploymentKey], params[StationKey], params[SensorKey]))
        else old(preparedXmlRequest)
    {
      operator := Lookup(params, OperatorKey);
      deployment := Lookup(params, DeploymentKey);
      station := Lookup(params, StationKey);
      sensor := Lookup(params, SensorKey);
      if operator.None? || deployment.None? || station.None? || sensor.None? {
        publishToMetadataServer := false;
      } else {
        preparedXmlRequest := Some(Template.PrepareRequest(operator.value, deployment.value, station.value, sensor.value));
      }
    }

    /**
     * ModelFitting.FitAndMarkDirty over the filled window: rewrites every entry
     * of `processed` and `dirtiness` with the fit's outputs for the current
     * values and timestamps.
     */
    method FitAndMarkDirty()
      requires Valid()
      modifies processed, dirtiness
      ensures AsBuffers() == Fitted(AsSettings(), lib, old(AsBuffers()))
    {
      var w := WindowOf(AsSettings(), AsBuffers());
      forall j | 0 <= j < processed.Length {
        processed[j] := lib.fit(w, j).processed;
      }
      forall j | 0 <= j < dirtiness.Length {
        dirtiness[j] := lib.fit(w, j).dirtiness;
      }
    }

    /**
     * `outputAsXML`: fills the dirtiness, from and to placeholders of the
     * prepared request. None where Java throws: no prepared request, or a
     * timestamp the ISO conversion rejects. The stream and processed values
     * are accepted but not used, as in the source. `Template.OutputAsXml` is
     * the same computation as a function over the prepared request, so that
     * the value-level model of `dataAvailable` in `Buffering` can use it; this
     * method is the sensor's own operation, reading its field.
     */
    method OutputAsXml(streamValue: real, processedValue: real, dirtinessValue: real, fromDate: int, toDate: int)
      returns (xml: Option<string>)
      ensures xml == Template.OutputAsXml(preparedXmlRequest, lib, dirtinessValue, fromDate, toDate)
    {
      if preparedXmlRequest.None? {
        return None;
      }
      var output := ReplaceAll(preparedXmlRequest.value, Template.DIRTINESS, lib.showDouble(dirtinessValue));
      var from := lib.isoTime(fromDate);
      if from.None? {
        return None;
      }
      output := ReplaceAll(output, Template.FROM, from.value);
      var to := lib.isoTime(toDate);
      if to.None? {
        return None;
      }
      output := ReplaceAll(output, Template.TO, to.value);
      return Some(output);
    }

    /**
     * `dataAvailable`: one step of the window buffer. While the window is not
     * full the element is stored; otherwise the window is fitted and emitted,
     * with a request for each dirty point while publishing, and the counter is
     * reset. Configuration never changes.
     */
    method DataAvailable(x: Sample)
      requires Valid()
      modifies this`bufferCount, this`produced, this`posted, stream, timestamps, processed, dirtiness
      ensures var o := Step(old(AsSettings()), lib, old(AsBuffers()), x);
        AsBuffers() == o.buffers && produced == old(produced) + o.records && posted == old(posted) + o.requests
      ensures old(bufferCount) <= windowSize ==> bufferCount <= windowSize
    {
      if bufferCount < windowSize {
        timestamps[bufferCount] := x.timestamp;
        stream[bufferCount] := x.value;
        bufferCount := bufferCount + 1;
      } else {
        FitAndMarkDirty();
        EmitWindow();
        bufferCount := 0;
      }
    }

    /**
     * The emitting loop of `dataAvailable`: for each index in order, one
     * stream element, then a request if the point is dirty and publication is
     * on. A request whose construction throws is skipped.
     */
    method EmitWindow()
      requires Valid()
      modifies this`produced, this`posted
      ensures produced == old(produced) + Records(AsBuffers(), windowSize)
      ensures posted == old(posted) + Requests(AsSettings(), lib, AsBuffers(), windowSize)
    {
      var j := 0;
      while j < processed.Length
        invariant 0 <= j <= processed.Length
        invariant produced == old(produced) + Records(AsBuffers(), j)
        invariant posted == old(posted) + Requests(AsSettings(), lib, AsBuffers(), j)
      {
        assert Records(AsBuffers(), j + 1) == Records(AsBuffers(), j) + [Record(stream[j], processed[j], dirtiness[j], timestamps[j])];
        produced := produced + [Record(stream[j], processed[j], dirtiness[j], timestamps[j])];
        PostIfDirty(j);
        j := j + 1;
      }
    }

    /** The body of the emitting loop after `dataProduced`: the request for a dirty point, when it can be built. */
    method PostIfDirty(j: nat)
      requires Valid() && j < windowSize
      modifies this`posted
      ensures posted == old(posted) + RequestAt(AsSettings(), lib, AsBuffers(), j)
    {
      if dirtiness[j] > 0.0 && publishToMetadataServer {
        var xml := OutputAsXml(stream[j], processed[j], dirtiness[j], timestamps[j], timestamps[j]);
        if xml.Some? {
          posted := posted + [xml.value];
        }
      }
    }
  }
}
