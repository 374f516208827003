/**
 The connection object of the handshake: a buffer, reply queue and flags that
 change line by line.
 */
module AuthConn {
  import opened AuthIdentity
  import TextLines
  import opened Auth

  method FindCrlf(s: string) returns (k: nat)
    ensures k == Crlf(s)
  {
    var i := 0;
    assert s[0..] == s;
    while i + 1 < |s|
      invariant i <= |s| && Crlf(s) == i + Crlf(s[i..])
    {
      if s[i] == '\r' && s[i + 1] == '\n' { return i; }
      assert s[i..][1..] == s[i + 1..];
      i := i + 1;
    }
    return |s|;
  }

  method AfterBlanks(s: string, from: nat) returns (arg: string)
    requires from <= |s|
    ensures arg == TextLines.SkipBlanks(s[from..])
  {
    var i := from;
    while i < |s| && s[i] == ' '
      invariant from <= i <= |s| && TextLines.SkipBlanks(s[from..]) == TextLines.SkipBlanks(s[i..])
    {
      assert s[i..][1..] == s[i + 1..];
      i := i + 1;
    }
    arg := s[i..];
  }

  class Conn {
    const uid: int
    const ok: string
    var inb: string
    var out: seq<string>
    var sawNul: bool
    var authOk: bool
    var fds: bool
    var authed: bool
    ghost var seen: seq<string>

    ghost function View(): State
      reads this
    {
      State(inb, out, sawNul, authOk, fds, seen)
    }

    /** `guid` is the bus id reported with an accepted identity. */
    constructor (uid: int, guid: string)
      ensures View() == State("", [], false, false, false, []) && !authed
      ensures this.uid == uid && ok == "OK " + guid + "\r\n"
    {
      this.uid, ok := uid, "OK " + guid + "\r\n";
      inb, out, sawNul, authOk, fds, authed := "", [], false, false, false, false;
      seen := [];
    }

    method Send(reply: string)
      modifies this`out
      ensures out == old(out) + [reply]
    {
      out := out + [reply];
    }

    /** The identity part of AUTH EXTERNAL and DATA. */
    method Check(arg: string)
      modifies this`out, this`authOk
      ensures Accepts(arg, uid) ==> out == old(out) + [ok] && authOk
      ensures !Accepts(arg, uid) ==> out == old(out) + ["REJECTED EXTERNAL\r\n"] && authOk == old(authOk)
    {
      hide HexUid;
      var claimed := HexUidLoop(arg);
      if claimed == BAD || (claimed != EMPTY && claimed != uid) {
        Send("REJECTED EXTERNAL\r\n");
        return;
      }
      Send(ok);
      authOk := true;
    }

    method Act(line: string) returns (code: Code)
      modifies this
      ensures (View(), code) == Step(old(View()), uid, ok, line)
      ensures authed == (old(authed) || code.Begun?)
    {
      hide Accepts;
      hide TextLines.SkipBlanks;
      code := More;
      if "AUTH EXTERNAL" <= line {
        var arg := AfterBlanks(line, 13);
        if arg == "" {
          Send("DATA\r\n");
          return;
        }
        Check(arg);
      } else if "DATA" <= line && (|line| == 4 || line[4] == ' ') {
        var arg := AfterBlanks(line, 4);
        Check(arg);
      } else if line == "AUTH" || "AUTH " <= line {
        Send("REJECTED EXTERNAL\r\n");
      } else if line == "NEGOTIATE_UNIX_FD" {
        fds := true;
        Send("AGREE_UNIX_FD\r\n");
      } else if line == "CANCEL" {
        authOk := false;
        Send("REJECTED EXTERNAL\r\n");
      } else if line == "BEGIN" {
        if !authOk { return Broken; }
        authed := true;
        return Begun;
      } else {
        Send("ERROR\r\n");
      }
    }

    /** One read's worth of handshake bytes. */
    method FeedBytes(buf: string) returns (code: Code)
      modifies this
      ensures (View(), code) == Feed(old(View()), uid, ok, buf)
      ensures authed == (old(authed) || code.Begun?)
    {
      hide Step;
      inb := inb + buf;
      if |inb| > MAX_AUTH_BYTES { return Broken; }
      if !sawNul {
        if |inb| == 0 { return More; }
        if inb[0] != '\0' { return Broken; }
        sawNul := true;
        inb := inb[1..];
      }
      ghost var entry := View();
      while true
        invariant Lines(entry, uid, ok) == Lines(View(), uid, ok) && authed == old(authed)
        decreases |inb|
      {
        var k := FindCrlf(inb);
        if k == |inb| { return More; }
        TakeLineInput(View(), uid, ok);
        var line := LineText(inb[..k]);
        inb := inb[k + 2..];
        seen := seen + [line];
        code := Act(line);
        if !code.More? { return; }
      }
    }
  }
}
