/** The serial parameters and flow control as bits of the terminal's control and input modes, with the
    bits in the places they have on Linux. */
module Termios {
  import opened Wrappers

  /** A 32-bit word, the least significant bit first. */
  type word = s: seq<bool> | |s| == 32 witness seq(32, _ => false)

  // The control modes by bit. CSIZE, 0x30, is two bits: CS5 has neither, CS6 the low, CS7 the high, CS8 both.
  const CSIZE_LOW: nat := 4
  const CSIZE_HIGH: nat := 5
  const CSTOPB: nat := 6
  const PARENB: nat := 8
  const PARODD: nat := 9
  const CMSPAR: nat := 30
  /** CRTSCTS. */
  const HARDWARE_FLOW_CONTROL: nat := 31

  // The input modes.
  const IXON: nat := 10
  const IXANY: nat := 11
  const IXOFF: nat := 12

  // The bits of a Java flow control mode.
  const FLOWCONTROL_RTSCTS_IN: nat := 0
  const FLOWCONTROL_RTSCTS_OUT: nat := 1
  const FLOWCONTROL_XONXOFF_IN: nat := 2
  const FLOWCONTROL_XONXOFF_OUT: nat := 3

  // The Java constants.
  const STOPBITS_1: int := 1
  const STOPBITS_2: int := 2
  const STOPBITS_1_5: int := 3
  const PARITY_NONE: int := 0
  const PARITY_ODD: int := 1
  const PARITY_EVEN: int := 2
  const PARITY_MARK: int := 3
  const PARITY_SPACE: int := 4

  datatype Params = Params(dataBits: int, stopBits: int, parity: int)

  predicate Valid(p: Params) {
    5 <= p.dataBits <= 8 && 1 <= p.stopBits <= 3 && 0 <= p.parity <= 4
  }

  // ---------- Serial parameters ----------

  function WithDataBits(c: word, dataBits: int): word {
    c[CSIZE_LOW := dataBits == 6 || dataBits == 8][CSIZE_HIGH := dataBits == 7 || dataBits == 8]
  }

  function WithStopBits(c: word, stopBits: int): word {
    if stopBits == STOPBITS_1 then c[CSTOPB := false]
    else if stopBits == STOPBITS_1_5 then WithDataBits(c[CSTOPB := true], 5)
    else c[CSTOPB := true]
  }

  function WithParity(c: word, parity: int): word {
    c[PARENB := parity != PARITY_NONE]
     [PARODD := parity == PARITY_ODD || parity == PARITY_MARK]
     [CMSPAR := parity == PARITY_MARK || parity == PARITY_SPACE]
  }

  /** The control modes after the three translations, one after the other. */
  function Encode(c: word, p: Params): word {
    WithParity(WithStopBits(WithDataBits(c, p.dataBits), p.stopBits), p.parity)
  }

  /** set_java_vars: an undefined parity reads as -1. */
  function Decode(c: word): Params {
    var dataBits :=
      if c[CSIZE_HIGH] then (if c[CSIZE_LOW] then 8 else 7) else if c[CSIZE_LOW] then 6 else 5;
    var parity :=
      if !c[PARENB] then (if c[PARODD] || c[CMSPAR] then -1 else PARITY_NONE)
      else if c[PARODD] then (if c[CMSPAR] then PARITY_MARK else PARITY_ODD)
      else if c[CMSPAR] then PARITY_SPACE else PARITY_EVEN;
    var stopBits := if !c[CSTOPB] then STOPBITS_1 else if dataBits == 5 then STOPBITS_1_5 else STOPBITS_2;
    Params(dataBits, stopBits, parity)
  }

  /** What the hardware can tell apart: 1.5 stop bits mean 5 data bits, and 2 stop bits with 5 data bits are 1.5. */
  function Normal(p: Params): Params {
    var dataBits := if p.stopBits == STOPBITS_1_5 then 5 else p.dataBits;
    Params(dataBits, if p.stopBits == STOPBITS_2 && dataBits == 5 then STOPBITS_1_5 else p.stopBits, p.parity)
  }

  /** Whatever the modes were, the parameters read back as they were set, up to their normal form. */
  lemma DecodeOfEncode(c: word, p: Params)
    requires Valid(p)
    ensures Decode(Encode(c, p)) == Normal(p)
  {
  }

  /** Each bit by its place: 0x30 has the character size, 0x40 the stop bits, 0x100, 0x200 and 0x40000000 the parity. */
  lemma EncodeBits(c: word, p: Params)
    requires Valid(p)
    ensures var w, dataBits := Encode(c, p), if p.stopBits == 3 then 5 else p.dataBits;
      && (if w[5] then 2 else 0) + (if w[4] then 1 else 0) == dataBits - 5
      && (w[6] <==> p.stopBits != 1)
      && (w[8] <==> p.parity != 0) && (w[9] <==> p.parity == 1 || p.parity == 3) && (w[30] <==> p.parity >= 3)
  {
  }

  /** The bits the encoders may change. */
  predicate InFrame(bit: nat) {
    bit == CSIZE_LOW || bit == CSIZE_HIGH || bit == CSTOPB || bit == PARENB || bit == PARODD || bit == CMSPAR
  }

  lemma EncodeKeepsTheRest(c: word, p: Params, bit: nat)
    requires bit < 32 && !InFrame(bit)
    ensures Encode(c, p)[bit] == c[bit]
  {
  }

  lemma SizeReadBack(c: word)
    ensures WithDataBits(c, Decode(c).dataBits) == c
  {
  }

  lemma StopReadBack(c: word)
    ensures WithStopBits(c, Decode(c).stopBits) == c
  {
    if Decode(c).stopBits == STOPBITS_1_5 {
      SizeReadBack(c);
    }
  }

  lemma ParityReadBack(c: word)
    requires Decode(c).parity != -1
    ensures WithParity(c, Decode(c).parity) == c
  {
  }

  /** Encoding what was read changes nothing, whenever the parity is one that can be read. */
  lemma EncodeOfDecode(c: word)
    ensures Valid(Decode(c)) ==> Encode(c, Decode(c)) == c
  {
    SizeReadBack(c);
    StopReadBack(c);
    if Decode(c).parity != -1 {
      ParityReadBack(c);
    }
  }

  /** The control modes the device has after set_port_params, where every call of it succeeds: invalid
      parameters are refused before they are stored. */
  function Configured(c: word, p: Params): word {
    if Valid(p) then Encode(c, p) else c
  }

  /** Setting what was read is refused exactly when the parity read is undefined, and the word is kept in
      either case. */
  lemma SettingWhatWasReadExactly(c: word)
    ensures Valid(Decode(c)) <==> Decode(c).parity != -1
    ensures Configured(c, Decode(c)) == c
  {
    EncodeOfDecode(c);
  }

  lemma NormalEncodesAlike(c: word, p: Params)
    requires Valid(p)
    ensures Valid(Normal(p)) && Encode(c, Normal(p)) == Encode(c, p)
  {
    if p.stopBits == STOPBITS_1_5 {
      HalfStop(c, p.dataBits);
    } else if p.stopBits == STOPBITS_2 && p.dataBits == 5 {
      HalfStop(c, 5);
    }
  }

  lemma HalfStop(c: word, dataBits: int)
    ensures WithStopBits(WithDataBits(c, dataBits), STOPBITS_1_5) == WithStopBits(WithDataBits(c, 5), STOPBITS_1_5)
    ensures WithStopBits(WithDataBits(c, 5), STOPBITS_1_5) == WithStopBits(WithDataBits(c, 5), STOPBITS_2)
  {
  }

  /** Setting the same parameters again changes nothing. */
  lemma EncodeTwice(c: word, p: Params)
    requires Valid(p)
    ensures Encode(Encode(c, p), p) == Encode(c, p)
  {
    DecodeOfEncode(c, p);
    NormalEncodesAlike(Encode(c, p), p);
    EncodeOfDecode(Encode(c, p));
  }

  /** What setSerialPortParams leaves in the Java fields. */
  function Cached(p: Params): Params {
    p.(dataBits := if p.stopBits == STOPBITS_1_5 then 5 else p.dataBits)
  }

  /** The Java fields agree with the device unless 2 stop bits were asked for with 5 data bits. */
  lemma CacheAgreesExactly(c: word, p: Params)
    requires Valid(p)
    ensures Cached(p) == Decode(Encode(c, p)) <==> !(p.dataBits == 5 && p.stopBits == STOPBITS_2)
  {
    DecodeOfEncode(c, p);
  }

  // ---------- Flow control ----------

  datatype Modes = Modes(cflag: word, iflag: word)

  function SetFlow(m: Modes, mode: word): Modes {
    Modes(m.cflag[HARDWARE_FLOW_CONTROL := mode[FLOWCONTROL_RTSCTS_IN] || mode[FLOWCONTROL_RTSCTS_OUT]],
          m.iflag[IXANY := false][IXOFF := mode[FLOWCONTROL_XONXOFF_IN]][IXON := mode[FLOWCONTROL_XONXOFF_OUT]])
  }

  /** nativeGetFlowControlMode. */
  function GetFlow(m: Modes): word {
    seq(32, _ => false)[FLOWCONTROL_RTSCTS_IN := m.cflag[HARDWARE_FLOW_CONTROL]]
                       [FLOWCONTROL_RTSCTS_OUT := m.cflag[HARDWARE_FLOW_CONTROL]]
                       [FLOWCONTROL_XONXOFF_IN := m.iflag[IXOFF]]
                       [FLOWCONTROL_XONXOFF_OUT := m.iflag[IXON]]
  }

  /** The mode with both RTS/CTS bits when it has one, and no unknown bits. */
  predicate Merges(mode: word, merged: word) {
    && merged[FLOWCONTROL_RTSCTS_IN] == merged[FLOWCONTROL_RTSCTS_OUT]
       == (mode[FLOWCONTROL_RTSCTS_IN] || mode[FLOWCONTROL_RTSCTS_OUT])
    && merged[FLOWCONTROL_XONXOFF_IN] == mode[FLOWCONTROL_XONXOFF_IN]
    && merged[FLOWCONTROL_XONXOFF_OUT] == mode[FLOWCONTROL_XONXOFF_OUT]
    && Known(merged)
  }

  /** No bit but the four that have a meaning. */
  predicate Known(mode: word) {
    forall bit :: 4 <= bit < 32 ==> !mode[bit]
  }

  /** Each bit by its place: 0x80000000 of the control modes, 0x400, 0x800 and 0x1000 of the input modes. */
  lemma SetFlowBits(m: Modes, mode: word)
    ensures var r := SetFlow(m, mode);
      && (r.cflag[31] <==> mode[0] || mode[1])
      && (r.iflag[12] <==> mode[2]) && (r.iflag[10] <==> mode[3]) && !r.iflag[11]
  {
  }

  lemma GetAfterSetFlow(m: Modes, mode: word)
    ensures Merges(mode, GetFlow(SetFlow(m, mode)))
  {
  }

  /** The mode reads back as it was set exactly when it has no unknown bit and both RTS/CTS bits or neither. */
  lemma FlowReadsBackExactly(m: Modes, mode: word)
    ensures GetFlow(SetFlow(m, mode)) == mode
       <==> Known(mode) && mode[FLOWCONTROL_RTSCTS_IN] == mode[FLOWCONTROL_RTSCTS_OUT]
  {
    var got := GetFlow(SetFlow(m, mode));
    if Known(mode) && mode[FLOWCONTROL_RTSCTS_IN] == mode[FLOWCONTROL_RTSCTS_OUT] {
      forall bit | 0 <= bit < 32 ensures got[bit] == mode[bit] {
        assert bit >= 4 ==> !mode[bit] && !got[bit];
      }
    } else {
      GetAfterSetFlow(m, mode);
    }
  }

  lemma SetFlowKeepsTheRest(m: Modes, mode: word, bit: nat)
    requires bit < 32
    ensures bit != HARDWARE_FLOW_CONTROL ==> SetFlow(m, mode).cflag[bit] == m.cflag[bit]
    ensures bit != IXON && bit != IXOFF && bit != IXANY ==> SetFlow(m, mode).iflag[bit] == m.iflag[bit]
    ensures !SetFlow(m, mode).iflag[IXANY]
  {
  }

  /** Setting the mode that was read changes nothing but that IXANY is cleared. */
  lemma SetAfterGetFlow(m: Modes)
    ensures SetFlow(m, GetFlow(m)) == m.(iflag := m.iflag[IXANY := false])
  {
    var r := SetFlow(m, GetFlow(m));
    assert r.cflag == m.cflag;
    assert r.iflag == m.iflag[IXANY := false];
  }

  // ---------- The calls ----------

  /** A struct termios under change. */
  class Termios {
    var cflag: word
    var iflag: word
    var speed: int

    constructor (cflag: word, iflag: word, speed: int)
      ensures this.cflag == cflag && this.iflag == iflag && this.speed == speed
    {
      this.cflag, this.iflag, this.speed := cflag, iflag, speed;
    }

    method TranslateDataBits(dataBits: int) returns (r: int)
      modifies `cflag
      ensures r == if 5 <= dataBits <= 8 then 0 else 1
      ensures cflag == if r == 0 then WithDataBits(old(cflag), dataBits) else old(cflag)
    {
      var temp := cflag[CSIZE_LOW := false][CSIZE_HIGH := false];
      match dataBits {
        case 5 =>
          cflag := temp;
          return 0;
        case 6 =>
          cflag := temp[CSIZE_LOW := true];
          return 0;
        case 7 =>
          cflag := temp[CSIZE_HIGH := true];
          return 0;
        case 8 =>
          cflag := temp[CSIZE_LOW := true][CSIZE_HIGH := true];
          return 0;
        case _ =>
          return 1;
      }
    }

    method TranslateStopBits(stopBits: int) returns (r: int)
      modifies `cflag
      ensures r == if 1 <= stopBits <= 3 then 0 else 1
      ensures cflag == if r == 0 then WithStopBits(old(cflag), stopBits) else old(cflag)
    {
      match stopBits {
        case 1 =>
          cflag := cflag[CSTOPB := false];
          return 0;
        case 3 =>
          cflag := cflag[CSTOPB := true];
          r := TranslateDataBits(5);
        case 2 =>
          cflag := cflag[CSTOPB := true];
          return 0;
        case _ =>
          return 1;
      }
    }

    /** An unknown parity is refused with the bits already cleared. */
    method TranslateParity(parity: int) returns (r: int)
      modifies `cflag
      ensures r == if 0 <= parity <= 4 then 0 else 1
      ensures cflag == WithParity(old(cflag), if r == 0 then parity else PARITY_NONE)
    {
      cflag := cflag[PARENB := false][PARODD := false][CMSPAR := false];
      match parity {
        case 0 =>
          return 0;
        case 2 =>
          cflag := cflag[PARENB := true];
          return 0;
        case 1 =>
          cflag := cflag[PARENB := true][PARODD := true];
          return 0;
        case 3 =>
          cflag := cflag[PARENB := true][PARODD := true][CMSPAR := true];
          return 0;
        case 4 =>
          cflag := cflag[PARENB := true][CMSPAR := true];
          return 0;
        case _ =>
          return 1;
      }
    }
  }

  const B38400: int := 15

  /** How the driver answers: tcgetattr, the speeds cfsetispeed and cfsetospeed know, TIOCGSERIAL with the
      baud base, TIOCSSERIAL and tcsetattr. Speed 0 is always known. */
  datatype Driver = Driver(readable: bool, known: int -> bool, baudBase: Option<int>, serialSet: bool, settable: bool)

  /** Speed code B38400 stands for a custom speed of 38400. */
  function Asked(cspeed: int): int {
    if cspeed == B38400 then 38400 else cspeed
  }

  /** The speed is none the driver knows, and a divisor for it can be set. */
  predicate Custom(cspeed: int, d: Driver) {
    !d.known(Asked(cspeed)) && d.known(B38400) && d.baudBase.Some? && d.baudBase.value >= 1 && d.serialSet
  }

  class SerialPort {
    /** The device's modes, speed, custom divisor and DTR. */
    var cflag: word
    var iflag: word
    var speed: int
    var divisor: int
    var dtr: bool
    /** The Java fields dataBits, stopBits and parity. */
    var params: Params

    constructor (cflag: word, iflag: word, speed: int, divisor: int, dtr: bool)
      ensures this.cflag == cflag && this.iflag == iflag && this.speed == speed && this.divisor == divisor
      ensures this.dtr == dtr && params == Decode(cflag)
    {
      this.cflag, this.iflag, this.speed, this.divisor, this.dtr := cflag, iflag, speed, divisor, dtr;
      params := Decode(cflag);
    }

    /** set_port_params. A refused call leaves the modes and the speed as they were, but valid parameters
        with speed 0 have dropped DTR, and a custom divisor stays set. */
    method SetPortParams(cspeed: int, p: Params, d: Driver) returns (r: int)
      requires cspeed >= 0 && d.known(0)
      modifies `cflag, `speed, `divisor, `dtr
      ensures r == 0 <==> d.readable && Valid(p) && (d.known(Asked(cspeed)) || Custom(cspeed, d)) && d.settable
      ensures r == 0 || r == 1
      ensures cflag == if r == 0 then Encode(old(cflag), p) else old(cflag)
      ensures cflag == Configured(old(cflag), p) || cflag == old(cflag)
      ensures speed == if r != 0 then old(speed) else if d.known(Asked(cspeed)) then Asked(cspeed) else B38400
      ensures divisor == if d.readable && Valid(p) && Custom(cspeed, d) then d.baudBase.value / Asked(cspeed)
                         else old(divisor)
      ensures var asked := if cspeed == 15 then 38400 else cspeed;
        r == 0 ==>
          if d.known(asked) then speed == asked && divisor == old(divisor)
          else
            && speed == 15 && d.known(15) && d.serialSet && d.baudBase.Some? && d.baudBase.value >= 1
            && divisor == d.baudBase.value / asked
      ensures dtr == (old(dtr) && !(d.readable && Valid(p) && cspeed == 0))
    {
      if !d.readable {
        return 1;
      }
      var ttyset := new Termios(cflag, iflag, speed);
      var failed := ttyset.TranslateDataBits(p.dataBits);
      if failed != 0 {
        return 1;
      }
      failed := ttyset.TranslateStopBits(p.stopBits);
      if failed != 0 {
        return 1;
      }
      failed := ttyset.TranslateParity(p.parity);
      if failed != 0 {
        return 1;
      }
      if cspeed == 0 {
        dtr := false;
      }
      var asked := if cspeed == B38400 then 38400 else cspeed;
      if d.known(asked) {
        ttyset.speed := asked;
      } else {
        if d.baudBase.None? {
          return 1;
        }
        var custom := d.baudBase.value / asked;
        if !d.known(B38400) {
          return 1;
        }
        ttyset.speed := B38400;
        if d.baudBase.value < 1 || !d.serialSet {
          return 1;
        }
        divisor := custom;
      }
      if !d.settable {
        return 1;
      }
      cflag, speed := ttyset.cflag, ttyset.speed;
      return 0;
    }

    /** RXTXPort.setSerialPortParams over nativeSetSerialPortParams, which throws when the native call
        fails, and then leaves the Java fields. `cspeed` is what translate_speed makes of the baud rate,
        negative when nothing. */
    method SetSerialPortParams(cspeed: int, p: Params, d: Driver) returns (thrown: bool)
      requires d.known(0)
      modifies this
      ensures thrown <==>
        !(cspeed >= 0 && d.readable && Valid(p) && (d.known(Asked(cspeed)) || Custom(cspeed, d)) && d.settable)
      ensures thrown ==> cflag == old(cflag) && speed == old(speed) && params == old(params)
      ensures !thrown ==> cflag == Encode(old(cflag), p) && params == Cached(p)
      ensures !thrown ==> speed == if d.known(Asked(cspeed)) then Asked(cspeed) else B38400
      ensures divisor == if cspeed >= 0 && d.readable && Valid(p) && Custom(cspeed, d)
                         then d.baudBase.value / Asked(cspeed) else old(divisor)
      ensures dtr == (old(dtr) && !(d.readable && Valid(p) && cspeed == 0)) && iflag == old(iflag)
    {
      if cspeed < 0 {
        return true;
      }
      var failed := SetPortParams(cspeed, p, d);
      if failed != 0 {
        return true;
      }
      params := p;
      if p.stopBits == STOPBITS_1_5 {
        params := params.(dataBits := 5);
      }
      return false;
    }

    /** setflowcontrol, which throws when tcgetattr or tcsetattr fails. */
    method SetFlowControl(mode: word, readable: bool, settable: bool) returns (thrown: bool)
      modifies `cflag, `iflag
      ensures thrown <==> !(readable && settable)
      ensures var was := Modes(old(cflag), old(iflag));
        Modes(cflag, iflag) == if thrown then was else SetFlow(was, mode)
    {
      if !readable {
        return true;
      }
      var ttyset := new Termios(cflag, iflag, speed);
      if mode[FLOWCONTROL_RTSCTS_IN] || mode[FLOWCONTROL_RTSCTS_OUT] {
        ttyset.cflag := ttyset.cflag[HARDWARE_FLOW_CONTROL := true];
      } else {
        ttyset.cflag := ttyset.cflag[HARDWARE_FLOW_CONTROL := false];
      }
      ttyset.iflag := ttyset.iflag[IXANY := false];
      if mode[FLOWCONTROL_XONXOFF_IN] {
        ttyset.iflag := ttyset.iflag[IXOFF := true];
      } else {
        ttyset.iflag := ttyset.iflag[IXOFF := false];
      }
      if mode[FLOWCONTROL_XONXOFF_OUT] {
        ttyset.iflag := ttyset.iflag[IXON := true];
      } else {
        ttyset.iflag := ttyset.iflag[IXON := false];
      }
      if !settable {
        return true;
      }
      cflag, iflag := ttyset.cflag, ttyset.iflag;
      return false;
    }
  }
}
