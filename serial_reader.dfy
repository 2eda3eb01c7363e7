/** The scale reader: the line decoder (`re.search(r"([+-]\d+\.\d+)", line)` then
    `float`) and the connection state machine around it. The serial port is an oracle:
    whether opening it succeeds, and what one `readline` produced. */
module SerialReader {
  import opened Wrappers
  import opened Text
  import opened FloatText
  import opened ScaleEmulator

  // ----- the reference: what the regular expression admits -----

  /** `s[i..e]` matches `[+-]\d+\.\d+` with the point at `d`. */
  ghost predicate RegexMatch(s: string, i: int, d: int, e: int) {
    0 <= i && i + 1 < d && d + 1 < e <= |s| &&
    IsSign(s[i]) && AllDigits(s[i + 1..d]) && s[d] == '.' && AllDigits(s[d + 1..e])
  }

  /** A match that the greedy second `\d+` cannot extend. */
  ghost predicate GreedyMatch(s: string, i: int, d: int, e: int) {
    RegexMatch(s, i, d, e) && (e == |s| || !IsDigit(s[e]))
  }

  /** The literal matched as `s[i..e]` with the point at `d`. */
  function SpanDecimal(s: string, i: nat, d: nat, e: nat): (r: Decimal)
    requires i < d < e <= |s| && AllDigits(s[i + 1..d]) && AllDigits(s[d + 1..e])
  {
    Decimal(s[i] == '-', DigitsValue(s[i + 1..d]), DigitsValue(s[d + 1..e]), e - d - 1)
  }

  // ----- the decoder -----

  /** End of the maximal run of digits starting at `i`. */
  function DigitRunEnd(s: string, i: nat): (j: nat)
    requires i <= |s|
    ensures i <= j <= |s| && AllDigits(s[i..j]) && (j == |s| || !IsDigit(s[j]))
    decreases |s| - i
  {
    if i < |s| && IsDigit(s[i]) then
      var j := DigitRunEnd(s, i + 1);
      assert s[i..j] == [s[i]] + s[i + 1..j];
      j
    else i
  }

  /** The regular expression matches at `i` when scanned the way `re` does: sign,
      maximal digit run, point, nonempty maximal digit run. */
  predicate MatchesAt(s: string, i: nat) {
    i < |s| && IsSign(s[i]) &&
    var d := DigitRunEnd(s, i + 1);
    d > i + 1 && d < |s| && s[d] == '.' && DigitRunEnd(s, d + 1) > d + 1
  }

  /** The leftmost position at or after `from` where a match starts. */
  function FirstMatch(s: string, from: nat): (r: Option<nat>)
    requires from <= |s|
    ensures r.Some? ==> from <= r.value < |s| && MatchesAt(s, r.value)
    ensures r.Some? ==> forall k :: from <= k < r.value ==> !MatchesAt(s, k)
    ensures r.None? ==> forall k :: from <= k < |s| ==> !MatchesAt(s, k)
    decreases |s| - from
  {
    if from == |s| then None
    else if MatchesAt(s, from) then Some(from)
    else FirstMatch(s, from + 1)
  }

  /** The literal the regular expression picks out of `s`: the leftmost match. */
  function ScanWeight(s: string): (r: Option<Decimal>)
  {
    match FirstMatch(s, 0)
    case None => None
    case Some(i) =>
      var d := DigitRunEnd(s, i + 1);
      Some(SpanDecimal(s, i, d, DigitRunEnd(s, d + 1)))
  }

  /** `parse_weight_data`: the value of the leftmost match, or `None`. It is total: the
      `ValueError` branch of the source cannot be taken, because every matched text is a
      valid float literal. */
  function ParseWeightData(s: string): (r: Option<real>) {
    match ScanWeight(s)
    case None => None
    case Some(x) => Some(DecimalValue(x))
  }

  /** The scanner finds a match at `i` exactly when the regular expression admits one
      there, and then it is the greedy one. */
  lemma MatchesAtIff(s: string, i: nat, d: int, e: int)
    ensures GreedyMatch(s, i, d, e) ==>
              MatchesAt(s, i) && d == DigitRunEnd(s, i + 1) && e == DigitRunEnd(s, d + 1)
    ensures RegexMatch(s, i, d, e) ==> MatchesAt(s, i)
    ensures MatchesAt(s, i) ==>
              GreedyMatch(s, i, DigitRunEnd(s, i + 1), DigitRunEnd(s, DigitRunEnd(s, i + 1) + 1))
  {
    if RegexMatch(s, i, d, e) {
      RunEndsAtPoint(s, i + 1, d);
      var e' := DigitRunEnd(s, d + 1);
      assert s[d + 1] == s[d + 1..e][0];
      if GreedyMatch(s, i, d, e) {
        RunEndsAtPoint(s, d + 1, e);
      }
    }
  }

  /** A digit run that is followed by a non-digit ends where the scanner stops. */
  lemma {:induction false} RunEndsAtPoint(s: string, i: nat, j: int)
    requires i <= j <= |s| && AllDigits(s[i..j]) && (j == |s| || !IsDigit(s[j]))
    ensures DigitRunEnd(s, i) == j
    decreases |s| - i
  {
    if i < j {
      assert s[i] == s[i..j][0];
      assert s[i + 1..j] == s[i..j][1..];
      RunEndsAtPoint(s, i + 1, j);
    }
  }

  /** No line without a substring of the form sign, digits, point, digits decodes. This
      covers the empty line, unsigned numbers such as `123.45` and integers such as `+12`. */
  lemma ParseNoneIff(s: string)
    ensures ParseWeightData(s).None? <==> forall i, d, e :: !RegexMatch(s, i, d, e)
  {
    if ScanWeight(s).None? {
      forall i, d, e | RegexMatch(s, i, d, e) ensures false {
        MatchesAtIff(s, i, d, e);
      }
    } else {
      var i := FirstMatch(s, 0).value;
      MatchesAtIff(s, i, 0, 0);
    }
  }

  /** The decoder returns the value of the leftmost match, taken greedily. */
  lemma ParseIsLeftmostMatch(s: string, i: nat, d: nat, e: nat)
    requires GreedyMatch(s, i, d, e)
    requires forall i', d', e' :: i' < i ==> !RegexMatch(s, i', d', e')
    ensures ScanWeight(s) == Some(SpanDecimal(s, i, d, e))
  {
    MatchesAtIff(s, i, d, e);
    NoScanMatchBefore(s, i);
    FirstMatchAt(s, i);
    ScanAt(s, i);
  }

  /** Where the regular expression admits no match, the scanner finds none either. */
  lemma NoScanMatchBefore(s: string, i: nat)
    requires forall i', d', e' :: i' < i ==> !RegexMatch(s, i', d', e')
    ensures forall k :: 0 <= k < i ==> !MatchesAt(s, k)
  {
    forall k | 0 <= k < i ensures !MatchesAt(s, k) {
      MatchesAtIff(s, k, 0, 0);
    }
  }

  /** The first match is the one with none before it. */
  lemma FirstMatchAt(s: string, i: nat)
    requires MatchesAt(s, i)
    requires forall k :: 0 <= k < i ==> !MatchesAt(s, k)
    ensures FirstMatch(s, 0) == Some(i)
  {
  }

  /** Where the scanner stops, `ScanWeight` reads the literal there. */
  lemma ScanAt(s: string, i: nat)
    requires FirstMatch(s, 0) == Some(i)
    ensures ScanWeight(s) ==
            Some(SpanDecimal(s, i, DigitRunEnd(s, i + 1), DigitRunEnd(s, DigitRunEnd(s, i + 1) + 1)))
  {
  }

  /** A line made of text without signs, then `sign digits . digits`, then text that does
      not start with a digit, yields the number in the middle. */
  lemma DecodeFramed(pre: string, sign: char, ip: string, fp: string, post: string)
    requires forall k :: 0 <= k < |pre| ==> !IsSign(pre[k])
    requires IsSign(sign) && |ip| >= 1 && AllDigits(ip) && |fp| >= 1 && AllDigits(fp)
    requires post == [] || !IsDigit(post[0])
    ensures ScanWeight(pre + [sign] + ip + "." + fp + post) ==
            Some(Decimal(sign == '-', DigitsValue(ip), DigitsValue(fp), |fp|))
  {
    var s := pre + [sign] + ip + "." + fp + post;
    var i := |pre|;
    var d := i + 1 + |ip|;
    var e := d + 1 + |fp|;
    assert s[i] == sign;
    assert s[i + 1..d] == ip;
    assert s[d] == '.';
    assert s[d + 1..e] == fp;
    assert e < |s| ==> s[e] == post[0];
    assert GreedyMatch(s, i, d, e);
    forall i', d', e' | i' < i ensures !RegexMatch(s, i', d', e') {
      if 0 <= i' { assert s[i'] == pre[i']; }
    }
    ParseIsLeftmostMatch(s, i, d, e);
    SpanDecimalOf(s, i, d, e, ip, fp);
  }

  lemma SpanDecimalOf(s: string, i: nat, d: nat, e: nat, ip: string, fp: string)
    requires i < d < e <= |s| && s[i + 1..d] == ip && s[d + 1..e] == fp
    requires AllDigits(ip) && AllDigits(fp)
    ensures SpanDecimal(s, i, d, e) == Decimal(s[i] == '-', DigitsValue(ip), DigitsValue(fp), |fp|)
  {
  }

  /** Round trip with the emulator: decoding the line for `h` hundredths gives `h / 100`. */
  lemma DecodeEncodedLine(h: int)
    ensures ParseWeightData(EncodeLine(h)) == Some(h as real / 100.0)
  {
    FrameHasNoSign();
    DecodeFramedField(LinePrefix, h, LineSuffix);
    CentsValue(h);
  }

  /** The weight field between text without signs and text that does not start with a
      digit yields its sign, whole part and two decimals. */
  lemma DecodeFramedField(pre: string, h: int, post: string)
    requires forall k :: 0 <= k < |pre| ==> !IsSign(pre[k])
    requires post == [] || !IsDigit(post[0])
    ensures ScanWeight(pre + WeightField(h) + post) == Some(Decimal(h < 0, Abs(h) / 100, Abs(h) % 100, 2))
  {
    var a := Abs(h);
    var ip := Zeros(Padding(h)) + IntegerDigits(a);
    var fp := CentDigits(a);
    assert pre + WeightField(h) + post == pre + [SignChar(h)] + ip + "." + fp + post;
    LeadingZerosValue(Padding(h), IntegerDigits(a));
    DecodeFramed(pre, SignChar(h), ip, fp, post);
  }

  lemma FrameHasNoSign()
    ensures forall k :: 0 <= k < |LinePrefix| ==> !IsSign(LinePrefix[k])
    ensures LineSuffix == [] || !IsDigit(LineSuffix[0])
  {
  }

  /** The decoded value does not change when whitespace is stripped from both ends,
      since whitespace is neither a sign, a digit nor a point. */
  lemma ParseIgnoresSurroundingSpace(s: string)
    ensures ParseWeightData(Strip(s)) == ParseWeightData(s)
  {
    ScanIgnoresSpaceWindow(s, StripStart(s), Strip(s));
  }

  /** `t` is `s[o..o + |t|]` and everything around it in `s` is whitespace. */
  ghost predicate SpaceFramed(s: string, o: nat, t: string) {
    o + |t| <= |s| && t == s[o..o + |t|] &&
    (forall k :: 0 <= k < o ==> IsSpace(s[k])) &&
    (forall k :: o + |t| <= k < |s| ==> IsSpace(s[k]))
  }

  lemma ScanIgnoresSpaceWindow(s: string, o: nat, t: string)
    requires SpaceFramed(s, o, t)
    ensures ScanWeight(t) == ScanWeight(s)
  {
    match FirstMatch(s, 0)
    case None =>
      NoMatchInWindow(s, o, t);
    case Some(i) =>
      var d := DigitRunEnd(s, i + 1);
      var e := DigitRunEnd(s, d + 1);
      ScanIsLeftmost(s, i);
      LeftmostInWindow(s, o, t, i, d, e);
  }

  /** Where the scanner stops, the regular expression has its leftmost, greedy match. */
  lemma ScanIsLeftmost(s: string, i: nat)
    requires FirstMatch(s, 0) == Some(i)
    ensures GreedyMatch(s, i, DigitRunEnd(s, i + 1), DigitRunEnd(s, DigitRunEnd(s, i + 1) + 1))
    ensures forall i', d', e' :: i' < i ==> !RegexMatch(s, i', d', e')
  {
    MatchesAtIff(s, i, 0, 0);
    forall i', d', e' | i' < i ensures !RegexMatch(s, i', d', e') {
      if 0 <= i' { MatchesAtIff(s, i', d', e'); }
    }
  }

  lemma NoMatchInWindow(s: string, o: nat, t: string)
    requires SpaceFramed(s, o, t) && FirstMatch(s, 0).None?
    ensures ScanWeight(t).None?
  {
    ParseNoneIff(s);
    ParseNoneIff(t);
    forall i, d, e ensures !RegexMatch(t, i, d, e) {
      if RegexMatch(t, i, d, e) { MatchShift(s, t, o, i, d, e); }
    }
  }

  /** The leftmost greedy match in `s` is the leftmost greedy match in the window. */
  lemma LeftmostInWindow(s: string, o: nat, t: string, i: nat, d: nat, e: nat)
    requires SpaceFramed(s, o, t) && GreedyMatch(s, i, d, e)
    requires forall i', d', e' :: i' < i ==> !RegexMatch(s, i', d', e')
    ensures ScanWeight(t) == ScanWeight(s)
  {
    ParseIsLeftmostMatch(s, i, d, e);
    MatchInWindow(s, o, t, i, d, e);
    LeftmostInSlice(s, o, t, i, d, e);
  }

  lemma LeftmostInSlice(s: string, o: nat, t: string, i: nat, d: nat, e: nat)
    requires o + |t| <= |s| && t == s[o..o + |t|] && GreedyMatch(s, i, d, e)
    requires forall i', d', e' :: i' < i ==> !RegexMatch(s, i', d', e')
    requires o <= i && e <= o + |t| && RegexMatch(t, i - o, d - o, e - o)
    ensures ScanWeight(t) == Some(SpanDecimal(s, i, d, e))
  {
    GreedyInWindow(s, o, t, i, d, e);
    NoEarlierMatchInWindow(s, o, t, i);
    ParseIsLeftmostMatch(t, i - o, d - o, e - o);
    SpanDecimalShift(s, o, t, i, d, e);
  }

  lemma GreedyInWindow(s: string, o: nat, t: string, i: nat, d: nat, e: nat)
    requires o + |t| <= |s| && t == s[o..o + |t|] && GreedyMatch(s, i, d, e)
    requires o <= i && e <= o + |t| && RegexMatch(t, i - o, d - o, e - o)
    ensures GreedyMatch(t, i - o, d - o, e - o)
  {
    if e - o < |t| { assert t[e - o] == s[e]; }
  }

  lemma NoEarlierMatchInWindow(s: string, o: nat, t: string, i: nat)
    requires o + |t| <= |s| && t == s[o..o + |t|] && o <= i
    requires forall i', d', e' :: i' < i ==> !RegexMatch(s, i', d', e')
    ensures forall i', d', e' :: i' < i - o ==> !RegexMatch(t, i', d', e')
  {
    forall i', d', e' | i' < i - o ensures !RegexMatch(t, i', d', e') {
      if RegexMatch(t, i', d', e') {
        MatchShift(s, t, o, i', d', e');
      }
    }
  }

  lemma SpanDecimalShift(s: string, o: nat, t: string, i: nat, d: nat, e: nat)
    requires o + |t| <= |s| && t == s[o..o + |t|] && o <= i && e <= o + |t|
    requires RegexMatch(s, i, d, e) && RegexMatch(t, i - o, d - o, e - o)
    ensures SpanDecimal(t, i - o, d - o, e - o) == SpanDecimal(s, i, d, e)
  {
    SliceOfSlice(s, o, o + |t|, i - o + 1, d - o);
    SliceOfSlice(s, o, o + |t|, d - o + 1, e - o);
  }

  /** Every match in `s` lies inside the window, at the same offset. */
  lemma MatchInWindow(s: string, o: nat, t: string, i: int, d: int, e: int)
    requires SpaceFramed(s, o, t) && RegexMatch(s, i, d, e)
    ensures o <= i && e <= o + |t| && RegexMatch(t, i - o, d - o, e - o)
  {
    MatchEndsNotSpace(s, o, t, i, d, e);
    WindowMatch(s, t, o, i, d, e);
  }

  /** A match starts with a sign and ends with a digit, neither of which is whitespace,
      so it cannot begin in the leading or end in the trailing whitespace. */
  lemma MatchEndsNotSpace(s: string, o: nat, t: string, i: int, d: int, e: int)
    requires SpaceFramed(s, o, t) && RegexMatch(s, i, d, e)
    ensures o <= i && e <= o + |t|
  {
    assert s[e - 1] == s[d + 1..e][e - d - 2];
    assert !IsSpace(s[i]) && !IsSpace(s[e - 1]);
  }

  /** A match in a window `t == s[o..o + |t|]` is a match in `s`, shifted by `o`. */
  lemma MatchShift(s: string, t: string, o: nat, i: int, d: int, e: int)
    requires o + |t| <= |s| && t == s[o..o + |t|] && RegexMatch(t, i, d, e)
    ensures RegexMatch(s, i + o, d + o, e + o)
  {
    assert t[i] == s[i + o] && t[d] == s[d + o];
    SliceOfSlice(s, o, o + |t|, i + 1, d);
    SliceOfSlice(s, o, o + |t|, d + 1, e);
  }

  /** A match in `s` that lies inside the window `t == s[o..o + |t|]` is a match in `t`. */
  lemma WindowMatch(s: string, t: string, o: nat, i: int, d: int, e: int)
    requires o + |t| <= |s| && t == s[o..o + |t|] && RegexMatch(s, i, d, e) && o <= i && e <= o + |t|
    ensures RegexMatch(t, i - o, d - o, e - o)
  {
    assert t[i - o] == s[i] && t[d - o] == s[d];
    SliceOfSlice(s, o, o + |t|, i - o + 1, d - o);
    SliceOfSlice(s, o, o + |t|, d - o + 1, e - o);
  }

  // ----- the connection state machine -----

  /** `self.ser`: no handle, or a `serial.Serial` object that is open or closed. */
  datatype SerialHandle = NoHandle | Handle(isOpen: bool)

  /** What one `readline().decode('ascii', errors='ignore')` gave: a line, or an
      exception (`SerialException` or any other). */
  datatype PortRead = Received(text: string) | ReadError

  datatype ConfigError = PortRequired

  /** The decoding step of `read_weight` for a physical port: a read error or an empty
      stripped line gives `None`; otherwise the stripped line is decoded. */
  function LineWeight(read: PortRead): (w: Option<real>)
    ensures read.ReadError? ==> w.None?
    ensures read.Received? ==> w == ParseWeightData(read.text)
  {
    match read
    case ReadError => None
    case Received(text) =>
      var line := Strip(text);
      ParseIgnoresSurroundingSpace(text);
      if line == [] then
        assert ParseWeightData(line).None? by { ParseNoneIff(line); }
        None
      else ParseWeightData(line)
  }

  /** `ScaleReader`: one telemetry source, either the emulator or a serial port. */
  class ScaleReader {
    const port: Option<string>
    const useEmulator: bool
    const emulator: Emulator?
    var ser: SerialHandle

    ghost predicate Valid()
      reads this, emulator
    {
      (useEmulator ==> emulator != null && emulator.Valid() && ser == NoHandle) &&
      (!useEmulator ==> port.Some? && emulator == null)
    }

    constructor Init(port: Option<string>, useEmulator: bool)
      requires useEmulator || port.Some?
      ensures Valid() && this.port == port && this.useEmulator == useEmulator && ser == NoHandle
      ensures useEmulator ==> fresh(emulator) && emulator.currentWeight == DefaultInitialWeight &&
                              emulator.counter == 0 && emulator.fluctuation == DefaultFluctuation &&
                              emulator.incrementStep == DefaultIncrementStep
    {
      this.port := port;
      this.useEmulator := useEmulator;
      ser := NoHandle;
      if useEmulator {
        emulator := new Emulator(DefaultInitialWeight, DefaultFluctuation, DefaultIncrementStep);
      } else {
        emulator := null;
      }
    }

    /** `ScaleReader(...)`: without the emulator a port must be given, otherwise
        construction fails (the source raises `ValueError`). */
    static method Create(port: Option<string>, useEmulator: bool) returns (r: Result<ScaleReader, ConfigError>)
      ensures r.Failure? <==> !useEmulator && port.None?
      ensures r.Success? ==> fresh(r.value) && r.value.Valid() && r.value.ser == NoHandle &&
                             r.value.port == port && r.value.useEmulator == useEmulator
      ensures r.Success? && useEmulator ==> fresh(r.value.emulator)
    {
      if !useEmulator && port.None? {
        return Failure(PortRequired);
      }
      var reader := new ScaleReader.Init(port, useEmulator);
      return Success(reader);
    }

    /** `connect`: the emulator always connects; an open port is kept as it is;
        otherwise the port is opened once, and a failure leaves no handle. */
    method Connect(openSucceeds: bool) returns (ok: bool)
      requires Valid()
      modifies this
      ensures Valid()
      ensures useEmulator ==> ok && ser == old(ser)
      ensures !useEmulator && old(ser) == Handle(true) ==> ok && ser == old(ser)
      ensures !useEmulator && old(ser) != Handle(true) ==>
                ok == openSucceeds && ser == (if openSucceeds then Handle(true) else NoHandle)
    {
      if useEmulator {
        return true;
      }
      if ser.Handle? && ser.isOpen {
        return true;
      }
      if openSucceeds {
        ser := Handle(true);
        ok := true;
      } else {
        ser := NoHandle;
        ok := false;
      }
    }

    /** `disconnect`: closes an open port; anything else is left as it is. */
    method Disconnect()
      requires Valid()
      modifies this
      ensures Valid()
      ensures ser == if !useEmulator && old(ser) == Handle(true) then Handle(false) else old(ser)
    {
      if useEmulator {
        return;
      }
      if ser.Handle? && ser.isOpen {
        ser := Handle(false);
      }
    }

    /** `parse_weight_data` on a line the emulator produced for `h` hundredths. */
    static method DecodeEmulatorLine(line: string, ghost h: int) returns (w: Option<real>)
      requires line == EncodeLine(h)
      ensures w == Some(h as real / 100.0)
    {
      w := ParseWeightData(line);
      DecodeEncodedLine(h);
    }

    /** `read_weight`: in emulator mode one simulated reading, decoded; on a port that is
        not open, exactly one connection attempt first (its failure gives `None`); then
        one read, decoded after stripping. No error escapes. */
    method ReadWeight(noise: int, resetBase: int, openSucceeds: bool, read: PortRead)
      returns (w: Option<real>)
      requires Valid()
      requires useEmulator ==> -(emulator.fluctuation as int) <= noise <= emulator.fluctuation &&
                               ResetAnchor - ResetSpread <= resetBase <= ResetAnchor + ResetSpread
      modifies this, emulator
      ensures Valid()
      ensures useEmulator ==>
                ser == old(ser) &&
                (emulator.currentWeight, emulator.counter) ==
                  Advance(old(emulator.currentWeight), old(emulator.counter), emulator.incrementStep, resetBase) &&
                w == Some(Emitted(emulator.currentWeight, noise) as real / 100.0)
      ensures !useEmulator && old(ser) != Handle(true) && !openSucceeds ==> w.None? && ser == NoHandle
      ensures !useEmulator && (old(ser) == Handle(true) || openSucceeds) ==>
                ser == Handle(true) &&
                w == (if read.Received? then ParseWeightData(read.text) else None)
    {
      if useEmulator {
        var line := emulator.GetSimulatedReading(noise, resetBase);
        w := DecodeEmulatorLine(line, Emitted(emulator.currentWeight, noise));
      } else {
        var ok := true;
        if !(ser.Handle? && ser.isOpen) {
          ok := Connect(openSucceeds);
        }
        w := if ok then LineWeight(read) else None;
      }
    }
  }
}
