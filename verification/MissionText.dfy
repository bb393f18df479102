/** The byte buffers of AutoBot and CommandTrip in testapp.c: 250-byte arrays
    holding NUL-terminated text, one of them reused for every mission. */
module MissionText {
  import opened Wdf
  import R = Rendezvous

  const BUFFER_SIZE: nat := 250

  /** "_response" */
  const SUFFIX: Bytes := [95, 114, 101, 115, 112, 111, 110, 115, 101]

  /** The C string at the start of a buffer. */
  function CText(b: Bytes): (r: Bytes)
    ensures |r| <= |b| && r == b[..|r|]
    ensures forall i | 0 <= i < |r| :: r[i] != 0
    ensures |r| < |b| ==> b[|r|] == 0
  {
    if b == [] || b[0] == 0 then [] else [b[0]] + CText(b[1..])
  }

  ghost predicate IsText(t: Bytes) {
    forall i | 0 <= i < |t| :: t[i] != 0
  }

  lemma {:induction false} CTextIs(b: Bytes, t: Bytes)
    requires IsText(t) && |t| < |b| && b[..|t|] == t && b[|t|] == 0
    ensures CText(b) == t
  {
  }

  /** What a program writes for a text: its characters and the terminator. */
  function Written(t: Bytes): Bytes {
    t + [0]
  }

  function Cut(t: Bytes): Bytes {
    R.Truncate(t, BUFFER_SIZE - 1)
  }

  /** The reply to a mission. */
  function Response(mission: Bytes): Bytes {
    Cut(Cut(mission) + SUFFIX)
  }

  /** A buffer after a read of data into it and the forced terminator. */
  function AfterRead(buffer: Bytes, data: Bytes): Bytes
    requires |data| <= |buffer| == BUFFER_SIZE
  {
    (data + buffer[|data|..])[BUFFER_SIZE - 1 := 0]
  }

  /** Whatever the buffer held before, a read leaves the text cut to 249
      characters in it. */
  lemma ReadLeavesText(buffer: Bytes, text: Bytes)
    requires |buffer| == BUFFER_SIZE && IsText(text)
    ensures CText(AfterRead(buffer, R.Truncate(Written(text), BUFFER_SIZE))) == Cut(text)
  {
    CTextIs(AfterRead(buffer, R.Truncate(Written(text), BUFFER_SIZE)), Cut(text));
  }

  /** A response fits a 250-byte read with its terminator. */
  lemma ResponseFits(mission: Bytes)
    requires IsText(mission)
    ensures IsText(Response(mission)) && Cut(Response(mission)) == Response(mission)
    ensures R.Truncate(Written(Response(mission)), BUFFER_SIZE) == Written(Response(mission))
  {
  }

  /** In figures: at most 249 characters of the mission, "_response" behind them, and at
      most 249 characters of that. */
  lemma ResponseInFigures(mission: Bytes)
    ensures |SUFFIX| == 9 && forall i | 0 <= i < 9 :: SUFFIX[i] as int == "_response"[i] as int
    ensures |mission| <= 240 ==> Response(mission) == mission + SUFFIX
    ensures 240 <= |mission| <= 249 ==> Response(mission) == mission + SUFFIX[..249 - |mission|]
    ensures |mission| >= 249 ==> Response(mission) == mission[..249]
    ensures IsText(mission) ==>
              R.Truncate(Written(mission), 250) ==
              if |mission| <= 249 then mission + [0] else mission[..250]
  {
  }

  /** What AutoBot writes back for the bytes it has read. */
  function Reply(data: Bytes): Bytes
    requires |data| <= BUFFER_SIZE
  {
    Written(Cut(CText(AfterRead(seq(BUFFER_SIZE, _ => 0), data)) + SUFFIX))
  }

  lemma ReplyToMission(mission: Bytes)
    requires IsText(mission)
    ensures Reply(R.Truncate(Written(mission), BUFFER_SIZE)) == Written(Response(mission))
  {
    ReadLeavesText(seq(BUFFER_SIZE, _ => 0), mission);
  }

  class AutoBot {
    const buffer: array<byte>

    constructor ()
      ensures buffer.Length == 250 && fresh(buffer)
    {
      buffer := new byte[BUFFER_SIZE];
    }

    /** The body of the mission loop between ReadFile and WriteFile: terminate what
        was read, append the suffix in place (strncat_s with _TRUNCATE), terminate
        again, and send the string with its NUL.  The bytes of earlier, longer
        missions still lie behind the terminator and never show. */
    method Answer(data: Bytes, ghost mission: Bytes) returns (reply: Bytes)
      requires buffer.Length == 250 && IsText(mission)
      requires data == R.Truncate(Written(mission), 250)
      modifies buffer
      ensures reply == Written(Response(mission))
    {
      ghost var before := buffer[..];
      forall i | 0 <= i < |data| {
        buffer[i] := data[i];
      }
      buffer[BUFFER_SIZE - 1] := 0;
      assert buffer[..] == AfterRead(before, data);
      ReadLeavesText(before, mission);

      AppendSuffix();
      buffer[BUFFER_SIZE - 1] := 0;
      reply := Written(CText(buffer[..]));
    }

    /** strncat_s(buffer, 250, "_response", _TRUNCATE) */
    method AppendSuffix()
      requires buffer.Length == 250 && buffer[249] == 0
      modifies buffer
      ensures buffer[249] == 0
      ensures CText(buffer[..]) == Cut(old(CText(buffer[..])) + SUFFIX)
    {
      ghost var text := CText(buffer[..]);
      var n := |CText(buffer[..])|;
      var room := Min(|SUFFIX|, BUFFER_SIZE - 1 - n);
      forall i | 0 <= i < room {
        buffer[n + i] := SUFFIX[i];
      }
      buffer[n + room] := 0;
      ghost var result := Cut(text + SUFFIX);
      assert |result| == n + room && forall i | 0 <= i < n + room :: buffer[i] == result[i];
      CTextIs(buffer[..], result);
    }
  }

  class CommandTrip {
    const buffer: array<byte>

    constructor ()
      ensures buffer.Length == 250 && fresh(buffer)
    {
      buffer := new byte[BUFFER_SIZE];
    }

    /** What CommandTrip makes of the response it reads. */
    method Receive(data: Bytes, ghost mission: Bytes) returns (text: Bytes)
      requires buffer.Length == 250 && IsText(mission)
      requires data == R.Truncate(Written(Response(mission)), 250)
      modifies buffer
      ensures text == Response(mission)
    {
      ResponseFits(mission);
      ghost var before := buffer[..];
      forall i | 0 <= i < |data| {
        buffer[i] := data[i];
      }
      buffer[BUFFER_SIZE - 1] := 0;
      assert buffer[..] == AfterRead(before, data);
      ReadLeavesText(before, Response(mission));
      text := CText(buffer[..]);
    }
  }
}
