/** Packets of the remote debugging protocol: the printer, the blocking receiver, and the two
    memory commands. Characters are bytes; a thrown exception is an outcome. */
module Gdb {
  import opened Bits
  import opened Wrappers

  type Text = seq<u8>

  const PLUS := 0x2B
  const MINUS := 0x2D
  const HASH := 0x23
  const DOLLAR := 0x24
  const CTRL_C := 3
  const MAX_MESSAGE := 4096

  // Numbers.

  /** The value of a `char`, which is signed. */
  function CharValue(c: u8): int { if c < 0x80 then c else c as int - 0x100 }

  predicate IsSpace(c: u8) { c == 0x20 || 9 <= c <= 13 }

  function Digit(c: u8): Option<nat> {
    if '0' as int <= c <= '9' as int then Some(c as int - '0' as int)
    else if 'a' as int <= c <= 'f' as int then Some(c as int - 'a' as int + 10)
    else if 'A' as int <= c <= 'F' as int then Some(c as int - 'A' as int + 10)
    else None
  }

  function HexValue(s: Text, acc: nat): nat {
    if s == [] || Digit(s[0]).None? then acc else HexValue(s[1..], 16 * acc + Digit(s[0]).value)
  }

  predicate HasHexPrefix(s: Text) {
    |s| >= 3 && s[0] == '0' as int && (s[1] == 'x' as int || s[1] == 'X' as int) && Digit(s[2]).Some?
  }

  /** std::stoi in base 16; None where it throws. */
  function StoI(s: Text): Option<int> {
    if s != [] && IsSpace(s[0]) then StoI(s[1..])
    else
      var negative := s != [] && s[0] == MINUS;
      var t := if s != [] && (s[0] == PLUS || s[0] == MINUS) then s[1..] else s;
      var u := if HasHexPrefix(t) then t[2..] else t;
      if u == [] || Digit(u[0]).None? then None
      else
        var v: int := HexValue(u, 0);
        if negative then (if v <= 0x8000_0000 then Some(-v) else None)
        else if v < 0x8000_0000 then Some(v) else None
  }

  function HexDigit(d: nat): u8
    requires d < 16
  {
    if d < 10 then '0' as int + d else 'a' as int + (d - 10)
  }

  /** Two lower-case digits. */
  function HexByte(b: u8): Text { [HexDigit(b / 16), HexDigit(b % 16)] }

  lemma {:induction false} HexByteReads(b: u8)
    ensures StoI(HexByte(b)) == Some(b)
  {
    var s := HexByte(b);
    assert Digit(s[0]) == Some(b / 16) && Digit(s[1]) == Some(b % 16);
    assert s[1..] == [s[1]] && s[1..][1..] == [];
    assert HexValue(s[1..], b / 16) == b;
  }

  // Printing.

  /** The checksum variable, an unsigned 32-bit sum of the characters. */
  function Sum(s: Text): (r: nat)
    ensures r < 0x1_0000_0000
  {
    if s == [] then 0 else (Sum(s[..|s| - 1]) + CharValue(s[|s| - 1])) % 0x1_0000_0000
  }

  function Packet(body: Text): Text { [DOLLAR] + body + [HASH] + HexByte(Sum(body) % 0x100) }

  method GetChecksumStr(msg: Text) returns (r: Text)
    ensures r == HexByte(Sum(msg) % 0x100)
  {
    var checksum: nat := 0;
    for i := 0 to |msg|
      invariant checksum == Sum(msg[..i])
    {
      checksum := (checksum + CharValue(msg[i])) % 0x1_0000_0000;
      assert msg[..i + 1][..i] == msg[..i];
    }
    assert msg[..|msg|] == msg;
    checksum := checksum % 0x100;
    r := HexByte(checksum);
  }

  method Packetify(body: Text) returns (msg: Text)
    ensures msg == Packet(body)
  {
    var checksum := GetChecksumStr(body);
    msg := [DOLLAR] + body;
    msg := msg + ([HASH] + checksum);
  }

  // Receiving.

  datatype Error = EmptyRead | MinusReceived | NoDollar | TooLong | NoNumber | BadChecksum

  /** Waits: the bytes so far do not decide. */
  datatype Outcome = Waits | Throws(error: Error) | Single(c: u8) | Message(buffer: Text, stripped: Text)

  /** What is left of received bytes as a zero-terminated string. */
  function CString(s: Text): Text {
    if s == [] || s[0] == 0 then [] else [s[0]] + CString(s[1..])
  }

  /** msg.substr(1, msg.length() - 4), where the length may wrap round to a huge number. */
  function Strip(msg: Text): Text
    requires |msg| >= 1
  {
    if |msg| < 4 then msg[1..] else msg[1..|msg| - 3]
  }

  predicate Stops(c: u8) { c == HASH || c == 0 }

  /** The first position from `i` on that ends the loop over the packet data. */
  function StopAt(s: Text, i: nat): (k: nat)
    requires i <= |s|
    ensures i <= k <= |s| && (k < |s| ==> Stops(s[k])) && forall j :: i <= j < k ==> !Stops(s[j])
    decreases |s| - i
  {
    if i == |s| || Stops(s[i]) then i else StopAt(s, i + 1)
  }

  /** The end of a packet whose data ends at `k`. */
  function Finish(s: Text, k: nat): Outcome
    requires 1 <= k && k + 3 <= |s|
  {
    var digits := CString(s[k + 1..k + 3]);
    match StoI(digits)
    case None => Throws(NoNumber)
    case Some(n) =>
      if Sum(s[1..k]) % 0x100 != n % 0x1_0000_0000 then Throws(BadChecksum)
      else Message(s[..k + 1] + digits, Strip(s[..k + 1] + digits))
  }

  /** What the receiver makes of the bytes `s`. */
  function Receive(s: Text): Outcome {
    if s == [] then Waits
    else if s[0] == 0 then Throws(EmptyRead)
    else if s[0] == PLUS || s[0] == CTRL_C then Single(s[0])
    else if s[0] == MINUS then Throws(MinusReceived)
    else if s[0] != DOLLAR then Throws(NoDollar)
    else
      var k := StopAt(s, 1);
      if k < MAX_MESSAGE then
        if k == |s| then Waits
        else if s[k] == 0 then Throws(EmptyRead)
        else if |s| < k + 3 then Waits
        else Finish(s, k)
      else if |s| == MAX_MESSAGE then Waits
      else if s[MAX_MESSAGE] == 0 then Throws(EmptyRead)
      else Throws(TooLong)
  }

  lemma OneByte(c: u8)
    ensures CString([c]) == if c == 0 then [] else [c]
  {
    assert [c][1..] == [];
  }

  lemma OneByteAt(s: Text, pos: nat)
    requires pos < |s|
    ensures CString(s[pos..pos + 1]) == if s[pos] == 0 then [] else [s[pos]]
  {
    OneByte(s[pos]);
    assert s[pos..pos + 1] == [s[pos]];
  }

  lemma SumExtends(s: Text, pos: nat)
    requires 1 <= pos < |s|
    ensures Sum(s[1..pos + 1]) == (Sum(s[1..pos]) + CharValue(s[pos])) % 0x1_0000_0000
  {
    var t := s[1..pos + 1];
    assert t[..|t| - 1] == s[1..pos];
  }

  /** The loop over the packet data, up to and including the '#'. */
  method ReceiveData(s: Text) returns (failure: Option<Outcome>, buffer: Text, sum: nat)
    requires s != [] && s[0] == DOLLAR
    ensures failure.Some? ==> failure.value == Receive(s)
    ensures var k := StopAt(s, 1);
      failure.None? ==> k < |s| && k < MAX_MESSAGE && s[k] == HASH && buffer == s[..k + 1] && sum == Sum(s[1..k + 1])
  {
    hide Sum, CString, Finish;
    ghost var k := StopAt(s, 1);
    buffer := [s[0]];
    sum := 0;
    NoSum(s);
    while true
      invariant 1 <= |buffer| <= k && |buffer| <= MAX_MESSAGE
      invariant buffer == s[..|buffer|] && sum == Sum(s[1..|buffer|])
      decreases |s| - |buffer|
    {
      var pos := |buffer|;
      if pos == |s| {
        return Some(Waits), buffer, sum;
      }
      OneByteAt(s, pos);
      var resp := CString(s[pos..pos + 1]);
      buffer := buffer + resp;
      if resp == [] {
        return Some(Throws(EmptyRead)), buffer, sum;
      }
      SumExtends(s, pos);
      sum := (sum + CharValue(resp[0])) % 0x1_0000_0000;
      if |buffer| > MAX_MESSAGE {
        return Some(Throws(TooLong)), buffer, sum;
      }
      if resp[0] == HASH {
        return None, buffer, sum;
      }
    }
  }

  lemma NoSum(s: Text)
    requires s != []
    ensures Sum(s[1..1]) == 0
  {
    assert s[1..1] == [];
  }

  lemma SumWithoutHash(s: Text, k: nat)
    requires 1 <= k < |s| && s[k] == HASH
    ensures (Sum(s[1..k + 1]) - HASH) % 0x1_0000_0000 == Sum(s[1..k])
  {
    SumExtends(s, k);
    hide Sum;
    ModBack(Sum(s[1..k]));
  }

  lemma ModBack(x: nat)
    requires x < 0x1_0000_0000
    ensures ((x + HASH) % 0x1_0000_0000 - HASH) % 0x1_0000_0000 == x
  {
  }

  method RecvMsgBlocking(s: Text) returns (r: Outcome)
    ensures r == Receive(s)
  {
    hide Sum, StoI;
    if s == [] {
      return Waits;
    }
    OneByte(s[0]);
    assert s[..1] == [s[0]];
    var resp := CString(s[..1]);
    if resp == [] {
      return Throws(EmptyRead);
    }
    if resp[0] == PLUS {
      return Single(resp[0]);
    }
    if resp[0] == MINUS {
      return Throws(MinusReceived);
    }
    if resp[0] == CTRL_C {
      return Single(resp[0]);
    }
    if resp[0] != DOLLAR {
      return Throws(NoDollar);
    }
    var failure, buffer, sum := ReceiveData(s);
    if failure.Some? {
      return failure.value;
    }
    r := ReceiveChecksum(s, buffer, sum);
  }

  /** The two characters after the '#'. */
  method ReceiveChecksum(s: Text, data: Text, dataSum: nat) returns (r: Outcome)
    requires s != [] && s[0] == DOLLAR
    requires var k := StopAt(s, 1);
      k < |s| && k < MAX_MESSAGE && s[k] == HASH && data == s[..k + 1] && dataSum == Sum(s[1..k + 1])
    ensures r == Receive(s)
  {
    hide Sum, StoI;
    var buffer, sum := data, dataSum;
    SumWithoutHash(s, |buffer| - 1);
    sum := (sum - HASH) % 0x1_0000_0000;
    if |s| < |buffer| + 2 {
      return Waits;
    }
    var checksumStr := CString(s[|buffer|..|buffer| + 2]);
    var number := StoI(checksumStr);
    if number.None? {
      return Throws(NoNumber);
    }
    var checksum := number.value % 0x1_0000_0000;
    buffer := buffer + checksumStr;
    if sum % 0x100 != checksum {
      return Throws(BadChecksum);
    }
    r := Message(buffer, Strip(buffer));
  }

  // Printer against receiver.

  /** Bodies that a packet can carry. */
  predicate Framable(body: Text) {
    |body| <= 4094 && forall i :: 0 <= i < |body| ==> body[i] != '#' as int && body[i] != 0
  }

  /** What follows a framable body decides the verdict: accepted as is, or rejected. */
  lemma {:induction false} FrameVerdict(body: Text, b: u8, more: Text)
    requires Framable(body)
    ensures var s := [DOLLAR] + body + [HASH] + HexByte(b);
      Receive(s + more) == if Sum(body) % 0x100 == b then Message(s, body) else Throws(BadChecksum)
  {
    var digits := HexByte(b);
    FrameStops(body, digits + more);
    FrameSlices(body, digits, more);
    PlainCString(digits);
    HexByteReads(b);
    hide *;
    var frame := [DOLLAR] + body + [HASH] + digits;
    FramedReceive(frame + more, |body| + 1, digits, b);
    StripFrame(frame);
  }

  lemma StripFrame(frame: Text)
    requires |frame| >= 4
    ensures Strip(frame) == frame[1..|frame| - 3]
  {
  }

  /** The end of a packet with two plain digits. */
  lemma FramedReceive(s: Text, k: nat, digits: Text, b: u8)
    requires 1 <= k < MAX_MESSAGE && k + 3 <= |s| && s[0] == DOLLAR && s[k] == HASH && StopAt(s, 1) == k
    requires s[k + 1..k + 3] == digits && CString(digits) == digits && StoI(digits) == Some(b)
    ensures Receive(s) == if Sum(s[1..k]) % 0x100 == b then Message(s[..k + 1] + digits, Strip(s[..k + 1] + digits))
                          else Throws(BadChecksum)
  {
    hide Sum, StoI, StopAt, CString, Strip;
  }

  lemma {:induction false} FrameStops(body: Text, tail: Text)
    requires Framable(body)
    ensures StopAt([DOLLAR] + body + [HASH] + tail, 1) == |body| + 1
  {
    var s := [DOLLAR] + body + [HASH] + tail;
    assert s[|body| + 1] == HASH && forall j :: 1 <= j < |body| + 1 ==> s[j] == body[j - 1];
  }

  lemma FrameSlices(body: Text, digits: Text, more: Text)
    requires |digits| == 2
    ensures var frame, k := [DOLLAR] + body + [HASH] + digits, |body| + 1; var s := frame + more;
      && s == [DOLLAR] + body + [HASH] + (digits + more)
      && s[0] == DOLLAR && s[k] == HASH && s[1..k] == body && s[k + 1..k + 3] == digits && s[..k + 1] + digits == frame
      && frame[1..|frame| - 3] == body
  {
  }

  lemma PlainCString(s: Text)
    requires forall i :: 0 <= i < |s| ==> s[i] != 0
    ensures CString(s) == s
  {
  }

  /** Receiving a printed packet gives its body back, whatever arrives after it, exactly for the
      framable bodies. */
  lemma {:induction false} RoundTrip(body: Text, more: Text)
    ensures Receive(Packet(body) + more) == Message(Packet(body), body) <==> Framable(body)
  {
    if Framable(body) {
      FrameVerdict(body, Sum(body) % 0x100, more);
    } else {
      NotFramable(body, Packet(body) + more);
    }
  }

  lemma {:induction false} NotFramable(body: Text, s: Text)
    requires !Framable(body) && |s| > |body| + 1 && s[0] == DOLLAR && s[1..|body| + 1] == body && s[|body| + 1] == HASH
    ensures Receive(s).Message? ==> Receive(s).stripped != body
  {
    hide StoI, Sum;
    var k := StopAt(s, 1);
    assert forall i :: 0 <= i < |body| ==> body[i] == s[i + 1];
    if Receive(s).Message? {
      assert k <= |body|;
      CStringLength(s[k + 1..k + 3]);
      NoEmptyNumber();
    }
  }

  lemma NoEmptyNumber()
    ensures StoI([]).None?
  {
  }

  lemma CStringLength(s: Text)
    requires |s| == 2
    ensures |CString(s)| == if s[0] == 0 then 0 else if s[1] == 0 then 1 else 2
    ensures CString(s) == s[..|CString(s)|]
  {
    OneByte(s[1]);
    assert s[1..] == [s[1]];
  }

  /** The printed checksum catches every change of a single character to another that does not
      end the packet. */
  lemma {:induction false} OneChangeIsRejected(body: Text, i: nat, c: u8, more: Text)
    requires Framable(body) && i < |body| && !Stops(c) && c != body[i]
    ensures Receive(Packet(body)[i + 1 := c] + more) == Throws(BadChecksum)
  {
    hide Sum, Receive, HexByte;
    var changed := body[i := c];
    assert Packet(body)[i + 1 := c] == [DOLLAR] + changed + [HASH] + HexByte(Sum(body) % 0x100);
    SumOfChange(body, i, c);
    WrapMoves(Sum(body), c as int - body[i] as int);
    FrameVerdict(changed, Sum(body) % 0x100, more);
  }

  lemma WrapMoves(x: int, d: int)
    requires d != 0 && -0x100 < d < 0x100
    ensures Wrap(x + d) != Wrap(x)
  {
  }

  lemma SumStep(s: Text)
    requires s != []
    ensures Wrap(Sum(s)) == Wrap(Sum(s[..|s| - 1]) + s[|s| - 1])
  {
    CharWraps(Sum(s[..|s| - 1]), s[|s| - 1]);
  }

  lemma CharWraps(x: int, c: u8)
    ensures Wrap((x + CharValue(c)) % 0x1_0000_0000) == Wrap(x + c)
  {
    var y := x + CharValue(c);
    assert y == 0x1_0000_0000 * (y / 0x1_0000_0000) + y % 0x1_0000_0000;
    WordWraps(y % 0x1_0000_0000, y / 0x1_0000_0000);
    if c >= 0x80 {
      WordWraps(y, 1);
    }
  }

  lemma WordWraps(x: int, k: int)
    ensures Wrap(x + 0x1_0000_0000 * k) == Wrap(x)
    ensures Wrap(x + 0x100 * k) == Wrap(x)
  {
  }

  lemma {:induction false} SumOfChange(body: Text, i: nat, c: u8)
    requires i < |body|
    ensures Wrap(Sum(body[i := c])) == Wrap(Sum(body) + (c as int - body[i] as int))
  {
    hide Wrap, Sum;
    var n := |body| - 1;
    var changed := body[i := c];
    SumStep(body);
    SumStep(changed);
    if i == n {
      assert changed[..n] == body[..n];
      WrapAgain(Sum(body[..n]) + body[n], c as int - body[n] as int);
      WrapAgain(Sum(body), c as int - body[n] as int);
    } else {
      assert changed[..n] == body[..n][i := c];
      SumOfChange(body[..n], i, c);
      var d := c as int - body[i] as int;
      WrapAgain(Sum(changed[..n]), body[n]);
      WrapAgain(Sum(body[..n]) + d, body[n]);
      WrapAgain(Sum(body[..n]) + body[n], d);
      WrapAgain(Sum(body), d);
    }
  }

  /** The strip always takes four characters off, so it is exact for every accepted message but
      those whose second checksum character is the zero byte. */
  lemma {:induction false} StripIsExact(s: Text)
    requires Receive(s).Message?
    ensures Receive(s).stripped == s[1..StopAt(s, 1)] <==> s[StopAt(s, 1) + 2] != 0
  {
    hide StoI, Sum;
    var k := StopAt(s, 1);
    var digits := CString(s[k + 1..k + 3]);
    CStringLength(s[k + 1..k + 3]);
    NoEmptyNumber();
    var buffer := s[..k + 1] + digits;
    assert buffer[1..k] == s[1..k];
    assert |buffer| >= 4 ==> Strip(buffer) == buffer[1..|buffer| - 3];
  }

  /** An accepted message can lose its last character: "$", 0x40, 0xC0, "#0" and a zero byte. */
  lemma {:induction false} ShortChecksum()
    ensures Receive([DOLLAR, 0x40, 0xC0, HASH, '0' as int, 0]) ==
      Message([DOLLAR, 0x40, 0xC0, HASH, '0' as int], [0x40])
  {
    var s: Text := [DOLLAR, 0x40, 0xC0, HASH, '0' as int, 0];
    assert StopAt(s, 3) == 3 && StopAt(s, 2) == 3 && StopAt(s, 1) == 3;
    var body := s[1..3];
    assert body[..1] == [0x40] && body[..1][..0] == [];
    assert Sum(body[..1]) == 0x40 && Sum(body) == 0;
    var digits := CString(s[4..6]);
    CStringLength(s[4..6]);
    assert digits == ['0' as int] && digits[1..] == [];
    assert Digit(digits[0]) == Some(0) && HexValue(digits[1..], 0) == 0;
    assert StoI(digits) == Some(0);
  }

  // Memory commands, on a 64 KiB plain RAM.

  const RAM_SIZE := 0x10000

  /** A bus address is the low 16 bits of the sum. */
  function Cell(adr: nat, i: nat): u16 { (adr + i) % RAM_SIZE }

  /** The reply to a read of `n` bytes. */
  function ReadHex(ram: seq<u8>, adr: nat, n: nat): Text
    requires |ram| == RAM_SIZE
  {
    if n == 0 then [] else ReadHex(ram, adr, n - 1) + HexByte(ram[Cell(adr, n - 1)])
  }

  /** Byte `i` of the written data; None where substr or stoi throws. */
  function DataByte(data: Text, i: nat): Option<u8> {
    if 2 * i > |data| then None
    else
      match StoI(if 2 * i + 2 <= |data| then data[2 * i..2 * i + 2] else data[2 * i..])
      case None => None
      case Some(v) => Some(v % 0x100)
  }

  datatype Written = Written(ram: seq<u8>, ok: bool)

  /** Memory after the first `n` writes; after an exception the rest is not written. */
  function WriteHex(ram: seq<u8>, adr: nat, n: nat, data: Text): (w: Written)
    requires |ram| == RAM_SIZE
    ensures |w.ram| == RAM_SIZE
  {
    if n == 0 then Written(ram, true)
    else
      var w := WriteHex(ram, adr, n - 1, data);
      if !w.ok || DataByte(data, n - 1).None? then Written(w.ram, false)
      else Written(w.ram[Cell(adr, n - 1) := DataByte(data, n - 1).value], true)
  }

  /** None where a number throws; otherwise the packet sent in reply. */
  method CmdReadMem(ram: array<u8>, addrStr: Text, lengthStr: Text) returns (reply: Option<Text>)
    requires ram.Length == RAM_SIZE
    ensures match (StoI(addrStr), StoI(lengthStr))
      case (Some(adr), Some(n)) => reply == Some(Packet(ReadHex(ram[..], adr % 0x1_0000_0000, n % 0x1_0000_0000)))
      case _ => reply == None
  {
    hide StoI, Packet;
    if StoI(addrStr).None? || StoI(lengthStr).None? {
      return None;
    }
    var adr: nat := StoI(addrStr).value % 0x1_0000_0000;
    var length: nat := StoI(lengthStr).value % 0x1_0000_0000;
    var msgResp: Text := [];
    for i := 0 to length
      invariant msgResp == ReadHex(ram[..], adr, i)
    {
      var data := ram[(adr + i) % RAM_SIZE];
      msgResp := msgResp + HexByte(data);
    }
    var msg := Packetify(msgResp);
    reply := Some(msg);
  }

  /** Whether the command replied; it stops at the first number that throws. */
  method CmdWriteMem(ram: array<u8>, addrStr: Text, lengthStr: Text, dataStr: Text) returns (ok: bool)
    requires ram.Length == RAM_SIZE
    modifies ram
    ensures match (StoI(addrStr), StoI(lengthStr))
      case (Some(adr), Some(n)) =>
        Written(ram[..], ok) == WriteHex(old(ram[..]), adr % 0x1_0000_0000, n % 0x1_0000_0000, dataStr)
      case _ => !ok && ram[..] == old(ram[..])
  {
    hide StoI, DataByte;
    if StoI(addrStr).None? || StoI(lengthStr).None? {
      return false;
    }
    var adr: nat := StoI(addrStr).value % 0x1_0000_0000;
    var length: nat := StoI(lengthStr).value % 0x1_0000_0000;
    for i := 0 to length
      invariant Written(ram[..], true) == WriteHex(old(ram[..]), adr, i, dataStr)
    {
      var data := DataByte(dataStr, i);
      if data.None? {
        FailsFrom(old(ram[..]), adr, i + 1, length, dataStr);
        return false;
      }
      ram[(adr + i) % RAM_SIZE] := data.value;
    }
    ok := true;
  }

  lemma {:induction false} FailsFrom(ram: seq<u8>, adr: nat, m: nat, n: nat, data: Text)
    requires |ram| == RAM_SIZE && m <= n && !WriteHex(ram, adr, m, data).ok
    ensures WriteHex(ram, adr, n, data) == WriteHex(ram, adr, m, data)
    decreases n
  {
    if m < n {
      FailsFrom(ram, adr, m, n - 1, data);
    }
  }

  lemma {:induction false} ReadHexPair(ram: seq<u8>, adr: nat, n: nat, i: nat)
    requires |ram| == RAM_SIZE && i < n
    ensures |ReadHex(ram, adr, n)| == 2 * n && ReadHex(ram, adr, n)[2 * i..2 * i + 2] == HexByte(ram[Cell(adr, i)])
    decreases n
  {
    hide HexByte, Cell;
    ReadHexLength(ram, adr, n);
    ReadHexLength(ram, adr, n - 1);
    var last := HexByte(ram[Cell(adr, n - 1)]);
    if i < n - 1 {
      ReadHexPair(ram, adr, n - 1, i);
      PairInFront(ReadHex(ram, adr, n - 1), last, i);
    } else {
      HexByteLength(ram[Cell(adr, i)]);
      PairBehind(ReadHex(ram, adr, n - 1), last);
    }
  }

  lemma {:induction false} ReadHexAt(ram: seq<u8>, adr: nat, n: nat, i: nat)
    requires |ram| == RAM_SIZE && i < n
    ensures |ReadHex(ram, adr, n)| == 2 * n
    ensures ReadHex(ram, adr, n)[2 * i..2 * i + 2] == HexByte(ram[Cell(adr, i)])
    ensures DataByte(ReadHex(ram, adr, n), i) == Some(ram[Cell(adr, i)])
  {
    hide StoI, ReadHex, HexByte, Cell;
    ReadHexPair(ram, adr, n, i);
    HexByteReads(ram[Cell(adr, i)]);
  }

  lemma {:induction false} ReadHexLength(ram: seq<u8>, adr: nat, n: nat)
    requires |ram| == RAM_SIZE
    ensures |ReadHex(ram, adr, n)| == 2 * n
  {
    if n > 0 {
      ReadHexLength(ram, adr, n - 1);
    }
  }

  /** Writing back what a read of any length printed changes nothing, even when the addresses run
      through the end of memory. */
  lemma {:induction false} WriteBack(ram: seq<u8>, adr: nat, n: nat)
    requires |ram| == RAM_SIZE
    ensures WriteHex(ram, adr, n, ReadHex(ram, adr, n)) == Written(ram, true)
  {
    WriteBackPrefix(ram, adr, n, n);
  }

  lemma {:induction false} WriteBackPrefix(ram: seq<u8>, adr: nat, n: nat, m: nat)
    requires |ram| == RAM_SIZE && m <= n
    ensures WriteHex(ram, adr, m, ReadHex(ram, adr, n)) == Written(ram, true)
    decreases m
  {
    if m > 0 {
      hide DataByte, ReadHex;
      WriteBackPrefix(ram, adr, n, m - 1);
      ReadHexAt(ram, adr, n, m - 1);
    }
  }

  /** The digits of some bytes. */
  function HexText(bytes: seq<u8>): Text {
    if bytes == [] then [] else HexText(bytes[..|bytes| - 1]) + HexByte(bytes[|bytes| - 1])
  }

  /** Bytes that go to one cell are equal. */
  ghost predicate Consistent(bytes: seq<u8>, adr: nat) {
    forall i, j :: 0 <= i < j < |bytes| && Cell(adr, i) == Cell(adr, j) ==> bytes[i] == bytes[j]
  }

  lemma {:induction false} HexTextLength(bytes: seq<u8>)
    ensures |HexText(bytes)| == 2 * |bytes|
  {
    if bytes != [] {
      HexTextLength(bytes[..|bytes| - 1]);
    }
  }

  lemma PairInFront(t: Text, pair: Text, i: nat)
    requires 2 * i + 2 <= |t|
    ensures (t + pair)[2 * i..2 * i + 2] == t[2 * i..2 * i + 2]
  {
  }

  lemma PairBehind(t: Text, pair: Text)
    requires |pair| == 2
    ensures (t + pair)[|t|..|t| + 2] == pair
  {
  }

  lemma {:induction false} HexTextPair(bytes: seq<u8>, i: nat)
    requires i < |bytes|
    ensures |HexText(bytes)| == 2 * |bytes| && HexText(bytes)[2 * i..2 * i + 2] == HexByte(bytes[i])
    decreases |bytes|
  {
    hide HexByte;
    var init := bytes[..|bytes| - 1];
    var last := HexByte(bytes[|bytes| - 1]);
    HexTextLength(bytes);
    HexTextLength(init);
    if i < |init| {
      HexTextPair(init, i);
      PairInFront(HexText(init), last, i);
    } else {
      HexByteLength(bytes[i]);
      PairBehind(HexText(init), last);
    }
  }

  lemma HexByteLength(b: u8)
    ensures |HexByte(b)| == 2
  {
  }

  lemma {:induction false} HexTextAt(bytes: seq<u8>, i: nat)
    requires i < |bytes|
    ensures |HexText(bytes)| == 2 * |bytes|
    ensures HexText(bytes)[2 * i..2 * i + 2] == HexByte(bytes[i])
    ensures DataByte(HexText(bytes), i) == Some(bytes[i])
  {
    hide StoI, HexText, HexByte;
    HexTextPair(bytes, i);
    HexByteReads(bytes[i]);
  }

  lemma WriteStep(ram: seq<u8>, adr: nat, bytes: seq<u8>, n: nat)
    requires |ram| == RAM_SIZE && n < |bytes| && WriteHex(ram, adr, n, HexText(bytes)).ok
    ensures var w := WriteHex(ram, adr, n, HexText(bytes));
      WriteHex(ram, adr, n + 1, HexText(bytes)) == Written(w.ram[Cell(adr, n) := bytes[n]], true)
  {
    HexTextAt(bytes, n);
  }

  /** A write leaves every cell it does not address alone. */
  lemma {:induction false} OtherCellsKept(ram: seq<u8>, adr: nat, n: nat, data: Text, a: u16)
    requires |ram| == RAM_SIZE && forall j :: 0 <= j < n ==> Cell(adr, j) != a
    ensures WriteHex(ram, adr, n, data).ram[a] == ram[a]
  {
    hide DataByte, Cell;
    if n > 0 {
      OtherCellsKept(ram, adr, n - 1, data, a);
    }
  }

  lemma OneMoreCell(ram: seq<u8>, adr: nat, bytes: seq<u8>, n: nat)
    requires |ram| == RAM_SIZE && n < |bytes| && Consistent(bytes, adr)
    requires forall i :: 0 <= i < n ==> ram[Cell(adr, i)] == bytes[i]
    ensures forall i :: 0 <= i < n + 1 ==> ram[Cell(adr, n) := bytes[n]][Cell(adr, i)] == bytes[i]
  {
    hide Cell;
  }

  lemma {:induction false} ConsistentCells(ram: seq<u8>, adr: nat, bytes: seq<u8>, n: nat)
    requires |ram| == RAM_SIZE && n <= |bytes| && Consistent(bytes, adr)
    ensures var w := WriteHex(ram, adr, n, HexText(bytes));
      w.ok && forall i :: 0 <= i < n ==> w.ram[Cell(adr, i)] == bytes[i]
    decreases n
  {
    if n > 0 {
      hide *;
      ConsistentCells(ram, adr, bytes, n - 1);
      WriteStep(ram, adr, bytes, n - 1);
      OneMoreCell(WriteHex(ram, adr, n - 1, HexText(bytes)).ram, adr, bytes, n - 1);
    }
  }

  /** Reading back what was written gives the same digits exactly if no cell was given two
      different bytes, in particular for every write of at most 64 KiB. */
  lemma {:induction false} ReadBack(ram: seq<u8>, adr: nat, bytes: seq<u8>)
    requires |ram| == RAM_SIZE
    ensures var after := WriteHex(ram, adr, |bytes|, HexText(bytes)).ram;
      ReadHex(after, adr, |bytes|) == HexText(bytes) <==> Consistent(bytes, adr)
    ensures |bytes| <= RAM_SIZE ==> Consistent(bytes, adr)
  {
    hide WriteHex, DataByte, StoI;
    var after := WriteHex(ram, adr, |bytes|, HexText(bytes)).ram;
    if Consistent(bytes, adr) {
      ConsistentCells(ram, adr, bytes, |bytes|);
      SameDigits(after, adr, bytes);
    }
    if ReadHex(after, adr, |bytes|) == HexText(bytes) {
      forall i, j | 0 <= i < j < |bytes| && Cell(adr, i) == Cell(adr, j) ensures bytes[i] == bytes[j] {
        ReadHexAt(after, adr, |bytes|, i);
        ReadHexAt(after, adr, |bytes|, j);
        HexTextAt(bytes, i);
        HexTextAt(bytes, j);
      }
    }
    CellsDiffer(adr);
  }

  lemma CellsDiffer(adr: nat)
    ensures forall i: nat, j: nat :: i < j < i + RAM_SIZE ==> Cell(adr, i) != Cell(adr, j)
  {
  }

  lemma {:induction false} SameDigits(ram: seq<u8>, adr: nat, bytes: seq<u8>)
    requires |ram| == RAM_SIZE && forall i :: 0 <= i < |bytes| ==> ram[Cell(adr, i)] == bytes[i]
    ensures ReadHex(ram, adr, |bytes|) == HexText(bytes)
  {
    if bytes != [] {
      hide Cell, HexByte;
      SameDigits(ram, adr, bytes[..|bytes| - 1]);
    }
  }

  // Numbers and addresses, independent of the round trips.

  /** Printed digits are lower-case hexadecimal. */
  lemma {:induction false} HexByteIsLower(b: u8)
    ensures forall i :: 0 <= i < 2 ==>
      '0' as int <= HexByte(b)[i] <= '9' as int || 'a' as int <= HexByte(b)[i] <= 'f' as int
  {
  }

  /** A number printed in hexadecimal without leading zeros, of any length. */
  function HexNumber(n: nat): Text {
    if n < 16 then [HexDigit(n)] else HexNumber(n / 16) + [HexDigit(n % 16)]
  }

  lemma DigitReads(d: nat)
    requires d < 16
    ensures Digit(HexDigit(d)) == Some(d) && !IsSpace(HexDigit(d)) && HexDigit(d) != PLUS && HexDigit(d) != MINUS
    ensures HexDigit(d) != 'x' as int && HexDigit(d) != 'X' as int
  {
  }

  ghost predicate AllDigits(s: Text) { forall i :: 0 <= i < |s| ==> Digit(s[i]).Some? }

  lemma {:induction false} ValueAppend(s: Text, acc: nat, d: nat)
    requires AllDigits(s) && d < 16
    ensures HexValue(s + [HexDigit(d)], acc) == 16 * HexValue(s, acc) + d
    decreases |s|
  {
    DigitReads(d);
    hide Digit, HexDigit;
    var t := s + [HexDigit(d)];
    if s == [] {
      assert t == [HexDigit(d)] && t[1..] == [];
    } else {
      assert t[0] == s[0] && t[1..] == s[1..] + [HexDigit(d)];
      ValueAppend(s[1..], 16 * acc + Digit(s[0]).value, d);
    }
  }

  lemma {:induction false} NumberReads(n: nat)
    ensures var s := HexNumber(n);
      && s != [] && AllDigits(s) && HexValue(s, 0) == n
      && (forall i :: 0 <= i < |s| ==>
        && !IsSpace(s[i]) && s[i] != PLUS && s[i] != MINUS
        && s[i] != 'x' as int && s[i] != 'X' as int)
  {
    DigitReads(n % 16);
    hide Digit, HexDigit, IsSpace;
    if n < 16 {
      var s := [HexDigit(n)];
      assert s[1..] == [];
    } else {
      NumberReads(n / 16);
      ValueAppend(HexNumber(n / 16), 0, n % 16);
    }
  }

  /** A printed number reads back whole up to the largest signed 32-bit one, and throws above. */
  lemma {:induction false} AnyNumberReads(n: nat)
    ensures StoI(HexNumber(n)) == if n <= 0x7FFF_FFFF then Some(n) else None
  {
    NumberReads(n);
    hide Digit, HexDigit, IsSpace, HexNumber, HexValue;
  }

  /** A read of `m + n` bytes is one of `m` bytes and one of `n` bytes behind them, and the first byte
      is the one at the address. */
  lemma {:induction false} ReadsInTurn(ram: seq<u8>, adr: nat, m: nat, n: nat)
    requires |ram| == RAM_SIZE
    ensures ReadHex(ram, adr, m + n) == ReadHex(ram, adr, m) + ReadHex(ram, adr + m, n)
    ensures ReadHex(ram, adr, 1) == HexByte(ram[adr % 0x10000])
  {
    hide HexByte;
    assert ReadHex(ram, adr, 0) == [];
    if n == 0 {
      assert ReadHex(ram, adr, m) + [] == ReadHex(ram, adr, m);
    } else {
      ReadsInTurn(ram, adr, m, n - 1);
      assert Cell(adr, m + (n - 1)) == Cell(adr + m, n - 1);
    }
  }

  /** Blanks and a sign are skipped, a prefix without a digit behind it reads as its zero, text
      behind the digits is ignored, and no digits at all throw. */
  lemma {:induction false} LibraryNumbers()
    ensures StoI([' ' as int, '5' as int]) == Some(5) && StoI(['+' as int, 'A' as int]) == Some(10)
    ensures StoI(['-' as int, '1' as int]) == Some(-1) && StoI(['0' as int, 'x' as int]) == Some(0)
    ensures StoI(['7' as int, 'g' as int]) == Some(7) && StoI(['g' as int]) == None
    ensures StoI(['0' as int, 'x' as int, 'f' as int]) == Some(15)
  {
    OneDigit('5' as int, 5);
    OneDigit('A' as int, 10);
    OneDigit('1' as int, 1);
    OneDigit('f' as int, 15);
    var blank: Text := [' ' as int, '5' as int];
    assert blank[1..] == ['5' as int];
    var plus: Text := ['+' as int, 'A' as int];
    assert plus[1..] == ['A' as int];
    var minus: Text := ['-' as int, '1' as int];
    assert minus[1..] == ['1' as int];
    var zero: Text := ['0' as int, 'x' as int];
    assert HexValue(zero[1..], 0) == 0;
    var tail: Text := ['7' as int, 'g' as int];
    assert HexValue(tail[1..], 7) == 7;
    var prefix: Text := ['0' as int, 'x' as int, 'f' as int];
    assert prefix[2..] == ['f' as int];
  }

  lemma OneDigit(c: u8, d: nat)
    requires Digit(c) == Some(d)
    ensures HexValue([c], 0) == d
  {
    assert [c][1..] == [];
  }

  /** What the first byte decides alone. */
  lemma {:induction false} FirstByte(s: Text)
    requires s != [] && s[0] != '$' as int
    ensures Receive(s) == if s[0] == '+' as int || s[0] == 3 then Single(s[0])
      else if s[0] == '-' as int then Throws(MinusReceived)
      else if s[0] == 0 then Throws(EmptyRead) else Throws(NoDollar)
  {
  }

  /** Of a packet still on its way the receiver says nothing. */
  lemma {:induction false} PrefixWaits(body: Text, n: nat)
    requires Framable(body) && n < |Packet(body)|
    ensures Receive(Packet(body)[..n]) == Waits
  {
    hide Sum, HexByte, Finish;
    HexByteLength(Sum(body) % 0x100);
    if n > 0 {
      var s := Packet(body)[..n];
      var k := |body| + 1;
      assert s[0] == DOLLAR && forall j :: 1 <= j < k && j < n ==> s[j] == body[j - 1];
      if n > k {
        assert s[k] == HASH;
        assert StopAt(s, 1) == k;
      } else {
        assert StopAt(s, 1) == n;
      }
    }
  }
}
