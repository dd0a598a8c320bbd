/**
 * The line-count check of npcm_sgpio_probe.  The "nuvoton,input-ngpios" and
 * "nuvoton,output-ngpios" properties are read as u32 values but stored in the
 * controller's u8 fields before they are compared with MAX_NR_HW_SGPIO, so
 * the comparison sees the counts modulo 256.
 */
module SgpioProbe {
  import opened Wrappers
  import opened SgpioRegs
  import opened SgpioClock

  const U8: nat := 0x100

  /** The line counts the controller keeps (nin_sgpio, nout_sgpio). */
  datatype Counts = Counts(nin: nat, nout: nat)

  /** The check as written: the properties are truncated to u8 first, and
      None stands for the -EINVAL return. */
  function CheckCounts(ninProp: nat, noutProp: nat): (r: Option<Counts>)
    requires ninProp < U32 && noutProp < U32
    ensures r.Some? ==> r.value.nin <= MaxLines && r.value.nout <= MaxLines
    ensures r.Some? ==> r.value.nin == ninProp % U8 && r.value.nout == noutProp % U8
    ensures r.None? <==> ninProp % U8 > MaxLines || noutProp % U8 > MaxLines
  {
    var nin, nout := ninProp % U8, noutProp % U8;
    if nin > MaxLines || nout > MaxLines then None else Some(Counts(nin, nout))
  }

  /** A device tree asking for 257 input lines passes the check and leaves
      the controller with one input line. */
  lemma CheckCountsAccepts257()
    ensures 257 > MaxLines
    ensures CheckCounts(257, 0) == Some(Counts(1, 0))
  {
  }

  /** The check on the u32 property values, as the error message (which
      prints the u32 values) indicates was meant. */
  function CheckCountsIntended(ninProp: nat, noutProp: nat): (r: Option<Counts>)
    requires ninProp < U32 && noutProp < U32
    ensures r.Some? <==> ninProp <= MaxLines && noutProp <= MaxLines
    ensures r.Some? ==> r.value == Counts(ninProp, noutProp)
  {
    if ninProp > MaxLines || noutProp > MaxLines then None else Some(Counts(ninProp, noutProp))
  }

  /** The two checks differ only for properties of 256 or more: below that
      the truncation is the identity. */
  lemma CheckCountsAgreeBelow256(ninProp: nat, noutProp: nat)
    requires ninProp < U8 && noutProp < U8
    ensures CheckCounts(ninProp, noutProp) == CheckCountsIntended(ninProp, noutProp)
  {
    assert ninProp % U8 == ninProp && noutProp % U8 == noutProp;
  }

  /** Whenever the intended check accepts, the as-written one accepts the
      same counts; the converse fails (CheckCountsAccepts257). */
  lemma IntendedAcceptsImpliesAsWritten(ninProp: nat, noutProp: nat)
    requires ninProp < U32 && noutProp < U32
    requires CheckCountsIntended(ninProp, noutProp).Some?
    ensures CheckCounts(ninProp, noutProp) == CheckCountsIntended(ninProp, noutProp)
  {
    CheckCountsAgreeBelow256(ninProp, noutProp);
  }
}
