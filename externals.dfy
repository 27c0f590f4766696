/**
 * The library calls the sensor makes into code that is not part of this
 * model. The host supplies them as function values; nothing is assumed about
 * them beyond their types.
 */
module Externals {
  import opened Wrappers

  /** What ModelFitting.FitAndMarkDirty is given: model id, error bound, window size and the filled buffers. */
  datatype Window = Window(model: int, errorBound: real, size: nat, stream: seq<real>, timestamps: seq<int>)

  /** What ModelFitting.FitAndMarkDirty writes at one index of `processed` and `dirtiness`. */
  datatype FitPoint = FitPoint(processed: real, dirtiness: real)

  datatype Library = Library(
    /** ModelFitting.getModelIdFromString: -1 for a name it does not know. */
    modelId: string -> int,
    /** Integer.parseInt: None where it throws NumberFormatException. */
    parseInt: string -> Option<int>,
    /** Double.parseDouble: None where it throws NumberFormatException. */
    parseDouble: string -> Option<real>,
    /** ModelFitting.FitAndMarkDirty, as the value it leaves at each index of the window. */
    fit: (Window, nat) -> FitPoint,
    /** Helpers.convertTimeFromLongToIso with pattern yyyy-MM-dd'T'HH:mm:ss.SSSZZ: None where it throws. */
    isoTime: int -> Option<string>,
    /** Double.toString. */
    showDouble: real -> string)
}
