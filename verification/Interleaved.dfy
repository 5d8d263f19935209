/** RTP over the RTSP connection: `$`, channel, 16-bit length, payload (section 10.12 of RFC 2326). */
module Interleaved {
  import opened Common

  const MARKER: byte := 0x24  // '$'
  const HEAD_LENGTH := 4

  predicate ValidUnit(u: seq<byte>)
  {
    |u| >= HEAD_LENGTH && u[0] == MARKER && |u| == HEAD_LENGTH + U16(u[2], u[3])
  }

  /** What a receiver does: read a head, then as many bytes as it announces. */
  function Deframe(stream: seq<byte>): Option<seq<seq<byte>>>
    decreases |stream|
  {
    if stream == [] then Some([])
    else if |stream| < HEAD_LENGTH || stream[0] != MARKER then None
    else
      var n := HEAD_LENGTH + U16(stream[2], stream[3]);
      if |stream| < n then None
      else match Deframe(stream[n..])
        case None => None
        case Some(rest) => Some([stream[..n]] + rest)
  }

  /** A stream of valid units is read back as exactly those units. */
  lemma {:induction false} DeframeRecoversUnits(units: seq<seq<byte>>)
    requires forall i :: 0 <= i < |units| ==> ValidUnit(units[i])
    ensures Deframe(Flatten(units)) == Some(units)
  {
    if units != [] {
      DeframeRecoversUnits(units[1..]);
      FirstUnit(units[0], Flatten(units[1..]));
      assert units == [units[0]] + units[1..];
    }
  }

  lemma FirstUnit(u: seq<byte>, rest: seq<byte>)
    requires ValidUnit(u)
    ensures Deframe(u + rest) == match Deframe(rest) { case None => None case Some(r) => Some([u] + r) }
  {
    var s := u + rest;
    assert s[0] == u[0] && s[2] == u[2] && s[3] == u[3];
    assert s[..|u|] == u && s[|u|..] == rest;
  }
}
