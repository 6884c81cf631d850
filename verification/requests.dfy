/**
 The label-update requests that the batch engine buffers and submits, the log
 entries it emits, and the per-request error message it writes when a request
 fails.
 */
module Requests {

  datatype Option<+T> = None | Some(value: T)

  /** One organisation request, told apart the way the error-message selection
      tells them apart with `is`. Identifiers, ids and option values are kept as
      the opaque strings that the message shows. An `UpdateOptionValue` whose
      option-set name is null is `None`. */
  datatype Request =
    | Update(logicalName: string, id: string)
    | UpdateAttribute(attributeLogicalName: string)
    | UpdateRelationship(schemaName: string)
    | UpdateOptionSet(name: string)
    | UpdateOptionValue(optionSetName: Option<string>, value: string,
                        attributeLogicalName: string, entityLogicalName: string)
    | SetLocLabels(attributeName: string, entityLogicalName: string, id: string)
    | Other

  datatype LogType = Info | Warning | Error

  datatype LogEventArgs = LogEventArgs(message: string, logType: LogType)

  /** Every recognised request's message starts with this. */
  const ErrorPrefix := "Error while updating "

  const GlobalOptionSetPrefix := "Error while updating global optionset ("

  const LocalOptionPrefix := "Error while updating option ("

  /** An option-value update names a global option set when its name is
      neither null nor empty. */
  predicate IsGlobalOptionValue(req: Request)
  {
    req.UpdateOptionValue? && req.optionSetName.Some? && req.optionSetName.value != ""
  }

  /** The variant-specific text that precedes the failure detail in the
      logged message; empty for an unrecognised request. */
  function Lead(req: Request): (lead: string)
    ensures req.Other? <==> lead == ""
    ensures !req.Other? ==> |lead| > |ErrorPrefix| && lead[..|ErrorPrefix|] == ErrorPrefix
  {
    match req
    case Update(logicalName, id) =>
      ErrorPrefix + ("record " + logicalName + " (" + id + "): ")
    case UpdateAttribute(attributeLogicalName) =>
      ErrorPrefix + ("attribute " + attributeLogicalName + ": ")
    case UpdateRelationship(schemaName) =>
      ErrorPrefix + ("relationship " + schemaName + ": ")
    case UpdateOptionSet(name) =>
      ErrorPrefix + ("optionset " + name + ": ")
    case UpdateOptionValue(optionSetName, value, attributeLogicalName, entityLogicalName) =>
      if IsGlobalOptionValue(req) then
        GlobalOptionSetPrefix + (optionSetName.value + ") value (" + value + ") label: ")
      else
        LocalOptionPrefix + (value + ") label for attribute " + attributeLogicalName
                             + " (" + entityLogicalName + "): ")
    case SetLocLabels(attributeName, entityLogicalName, id) =>
      ErrorPrefix + (attributeName + " of record " + entityLogicalName + " (" + id + "): ")
    case Other =>
      ""
  }

  /** The text logged for a request that failed with `detail` (the fault's
      message, or the rendered exception): the variant's lead followed by the
      detail verbatim. */
  function Message(req: Request, detail: string): (m: string)
    ensures |m| >= |detail| && m[|m| - |detail|..] == detail
    ensures req.Other? <==> m == detail
    ensures !req.Other? ==> |m| > |ErrorPrefix| && m[..|ErrorPrefix|] == ErrorPrefix
  {
    Lead(req) + detail
  }

  /** An option-value update gets the global-option-set text exactly when its
      option-set name is non-null and non-empty, and the attribute-option text
      otherwise. */
  lemma OptionValueTemplate(req: Request, detail: string)
    requires req.UpdateOptionValue?
    ensures var m := Message(req, detail);
      && (IsGlobalOptionValue(req) <==> |m| >= |GlobalOptionSetPrefix| && m[..|GlobalOptionSetPrefix|] == GlobalOptionSetPrefix)
      && (!IsGlobalOptionValue(req) <==> |m| >= |LocalOptionPrefix| && m[..|LocalOptionPrefix|] == LocalOptionPrefix)
  {
    var m := Message(req, detail);
    if IsGlobalOptionValue(req) {
      assert m[21] == GlobalOptionSetPrefix[21] == 'g';
      assert LocalOptionPrefix[21] == 'o';
    } else {
      assert m[21] == LocalOptionPrefix[21] == 'o';
      assert GlobalOptionSetPrefix[21] == 'g';
    }
  }
}
