/**
 Which constants a module may embed (byteflow/src/bytecode/verify.rs). Only a
 trusted module may carry `Cap`, `Pid` or `Message` constants.
 */
module Trust {
  import opened Common
  import opened Values

  datatype TrustLevel = Trusted | Restricted | Untrusted {
    predicate AllowsAuthorityConstants() { Trusted? }
  }

  datatype ConstantKind = Capability | ProcessId | MessageKind

  // Kind of the first authority-bearing value met in reading order, the one
  // `reject_untrusted_constant` reports.
  function FirstAuthority(v: Value): (r: Option<ConstantKind>)
    decreases v, 1
  {
    match v
    case Cap(_) => Some(Capability)
    case Pid(_) => Some(ProcessId)
    case Msg(_) => Some(MessageKind)
    case List(items) => FirstAuthorityIn(items)
    case Record(fields) => FirstAuthorityIn(fields)
    case Map(entries) => FirstAuthorityOf(entries)
    case _ => None
  }

  function FirstAuthorityIn(items: seq<Value>): (r: Option<ConstantKind>)
    decreases items, 0
  {
    if items == [] then None
    else if FirstAuthority(items[0]).Some? then FirstAuthority(items[0])
    else FirstAuthorityIn(items[1..])
  }

  function FirstAuthorityOf(entries: seq<Entry>): (r: Option<ConstantKind>)
    decreases entries, 0
  {
    if entries == [] then None
    else
      var value := entries[0].value;
      assert value < entries[0];
      if FirstAuthority(value).Some? then FirstAuthority(value) else FirstAuthorityOf(entries[1..])
  }

  // `validate_constant`: the kind it reports, if it refuses.
  function ValidateConstant(v: Value, trust: TrustLevel): (refused: Option<ConstantKind>) {
    if trust.AllowsAuthorityConstants() then None
    else if !WithinNestingLimit(v) then Some(Capability)
    else FirstAuthority(v)
  }
}
