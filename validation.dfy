/** `check_validation_layer_support` of main.c: every requested layer must be
    among the layers the loader reports; the first one that is not is reported. */
module Validation {

  /** The result of the check: `Missing` carries what is written to `missing_out`. */
  datatype LayerSupport = Supported | Missing(name: string)

  /** For each requested name in order, scan the available layer names for an
      equal one; stop at the first requested name with no match. */
  method CheckValidationLayerSupport(required: seq<string>, available: seq<string>) returns (result: LayerSupport)
    ensures result.Supported? <==> forall i | 0 <= i < |required| :: required[i] in available
    ensures result.Missing? ==>
      exists k | 0 <= k < |required| ::
        && result.name == required[k]
        && required[k] !in available
        && forall i | 0 <= i < k :: required[i] in available
  {
    for i := 0 to |required|
      invariant forall k | 0 <= k < i :: required[k] in available
    {
      var layerFound := false;
      for j := 0 to |available|
        invariant !layerFound
        invariant required[i] !in available[..j]
      {
        if available[j] == required[i] {
          layerFound := true;
          break;
        }
      }
      if !layerFound {
        assert available[..|available|] == available;
        return Missing(required[i]);
      }
    }
    return Supported;
  }
}
