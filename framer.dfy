/**
 * The framing state machine of Devino::processCommands, identical in both
 * firmware revisions, as a function of the bytes read.
 *
 * Outside a command every byte but '<' is dropped; inside, every byte but '>'
 * is stored in cmd[index] and index moves on, held at 63; '>' writes the NUL
 * at cmd[index], resets the state and hands the line to runCommand. isCmd and
 * index are static and outlive the call; the 64-byte buffer is a local that
 * starts with unspecified contents on every call.
 */
module Framer {
  import opened Util
  import opened CStr

  const MaxIndex: nat := 63

  /**
   * How a call ended: input ran out, a line was completed, or a line was completed
   * whose first bytes were stored by an earlier call (so the buffer holds garbage).
   */
  datatype Outcome = Waiting | Complete(line: string) | Garbled

  /**
   * The state after scanning: the static isCmd and index, whether the buffer's
   * used part is known, the bytes stored since the command began (or since the
   * call began), the unread input and the outcome.
   */
  datatype Frame = Frame(isCmd: bool, index: nat, known: bool, body: string, rest: seq<char>, outcome: Outcome)

  /** The framing state is well formed: index in range, and zero outside a command. */
  predicate StateOk(isCmd: bool, index: nat)
  {
    index <= MaxIndex && (!isCmd ==> index == 0)
  }

  /** At the start of a call the buffer's used part is known only when it is empty. */
  predicate KnownAtCall(isCmd: bool, index: nat)
  {
    !isCmd || index == 0
  }

  /** The loop of processCommands over the bytes rx, stopping after the first complete command. */
  function Scan(isCmd: bool, index: nat, known: bool, body: string, rx: seq<char>): (f: Frame)
    requires StateOk(isCmd, index)
    ensures StateOk(f.isCmd, f.index)
    ensures |f.rest| <= |rx|
    ensures f.outcome.Waiting? ==> f.rest == []
    ensures !f.outcome.Waiting? ==> !f.isCmd
    decreases |rx|
  {
    if rx == [] then Frame(isCmd, index, known, body, [], Waiting)
    else if isCmd then
      if rx[0] != '>' then Scan(true, Min(index + 1, MaxIndex), known, body + [rx[0]], rx[1..])
      else
        var line := CString(body[..Min(|body|, MaxIndex)]);
        Frame(false, 0, known, body, rx[1..], if known then Complete(line) else Garbled)
    else if rx[0] == '<' then Scan(true, index, true, [], rx[1..])
    else Scan(false, index, known, body, rx[1..])
  }

  /**
   * What a scan can hand on: a completed line is at most 63 bytes and holds no NUL
   * and no '>'; a garbled one needs a command already open with its buffer unknown.
   */
  lemma {:induction false} ScanOutcome(isCmd: bool, index: nat, known: bool, body: string, rx: seq<char>)
    requires StateOk(isCmd, index) && '>' !in body
    ensures var f := Scan(isCmd, index, known, body, rx);
            (f.outcome.Complete? ==> |f.outcome.line| <= MaxIndex && '\0' !in f.outcome.line && '>' !in f.outcome.line)
            && (f.outcome.Garbled? ==> isCmd && !known)
    decreases |rx|
  {
    if rx == [] {
    } else if isCmd {
      if rx[0] != '>' {
        ScanOutcome(true, Min(index + 1, MaxIndex), known, body + [rx[0]], rx[1..]);
      } else {
        var cut := body[..Min(|body|, MaxIndex)];
        assert forall i | 0 <= i < |cut| :: cut[i] == body[i];
        var line := CString(cut);
        assert forall i | 0 <= i < |line| :: line[i] == cut[i];
      }
    } else if rx[0] == '<' {
      ScanOutcome(true, index, true, [], rx[1..]);
    } else {
      ScanOutcome(false, index, known, body, rx[1..]);
    }
  }

  /** The scan a call of processCommands performs: fresh buffer, static state. */
  function Call(isCmd: bool, index: nat, rx: seq<char>): (f: Frame)
    requires StateOk(isCmd, index)
    ensures StateOk(f.isCmd, f.index)
    ensures f.outcome.Complete? ==> |f.outcome.line| <= MaxIndex && '\0' !in f.outcome.line && '>' !in f.outcome.line
    ensures f.outcome.Garbled? ==> isCmd && index > 0
  {
    ScanOutcome(isCmd, index, KnownAtCall(isCmd, index), [], rx);
    Scan(isCmd, index, KnownAtCall(isCmd, index), [], rx)
  }

  /**
   * The buffer step of processCommands: storing byte c at cmd[index] keeps the
   * buffer's used part equal to the stored bytes' first 63.
   */
  lemma {:induction false} BufferStore(buf: seq<char>, index: nat, body: string, c: char)
    requires |buf| == MaxIndex + 1 && index == Min(|body|, MaxIndex) && buf[..index] == body[..index]
    ensures var next := Min(index + 1, MaxIndex);
            next == Min(|body + [c]|, MaxIndex) && buf[index := c][..next] == (body + [c])[..next]
  {
    var next := Min(index + 1, MaxIndex);
    forall k | 0 <= k < next ensures buf[index := c][k] == (body + [c])[k] {
      if k < index {
        assert buf[k] == buf[..index][k];
      }
    }
  }

  /** The terminating NUL at cmd[index] makes the buffer read as the line Scan delivers. */
  lemma {:induction false} BufferLine(buf: seq<char>, index: nat, body: string)
    requires |buf| == MaxIndex + 1 && index == Min(|body|, MaxIndex) && buf[..index] == body[..index]
    ensures CString(buf[index := '\0']) == CString(body[..Min(|body|, MaxIndex)])
  {
    var b := buf[index := '\0'];
    CStringCut(b, index);
    assert b[..index] == buf[..index];
  }

  /** Outside a command, bytes other than '<' are dropped without effect. */
  lemma {:induction false} SkipsUntilStart(junk: seq<char>, known: bool, body: string, rx: seq<char>)
    requires '<' !in junk
    ensures Scan(false, 0, known, body, junk + rx) == Scan(false, 0, known, body, rx)
    decreases |junk|
  {
    if junk != [] {
      assert (junk + rx)[0] == junk[0] && (junk + rx)[1..] == junk[1..] + rx;
      assert '<' !in junk[1..];
      SkipsUntilStart(junk[1..], known, body, rx);
    } else {
      assert junk + rx == rx;
    }
  }

  /**
   * Inside a command, the bytes up to '>' are collected; the line is their first 63
   * bytes up to any NUL when the buffer is known, whatever the index.
   */
  lemma {:induction false} CollectsUntilEnd(index: nat, known: bool, pre: string, body: string, rest: seq<char>)
    requires index <= MaxIndex && '>' !in body
    ensures var all := pre + body;
            Scan(true, index, known, pre, body + ">" + rest)
            == Frame(false, 0, known, all, rest,
                     if known then Complete(CString(all[..Min(|all|, MaxIndex)])) else Garbled)
    decreases |body|
  {
    var rx := body + ">" + rest;
    if body == [] {
      assert rx[0] == '>' && rx[1..] == rest;
      assert pre + body == pre;
    } else {
      assert rx[0] == body[0] && rx[1..] == body[1..] + ">" + rest;
      assert '>' !in body[1..];
      CollectsUntilEnd(Min(index + 1, MaxIndex), known, pre + [body[0]], body[1..], rest);
      assert pre + [body[0]] + body[1..] == pre + body;
    }
  }

  /** Inside a command and without '>', every byte is stored and the index advances, held at 63. */
  lemma {:induction false} CollectsWithoutEnd(index: nat, known: bool, pre: string, body: string)
    requires index <= MaxIndex && '>' !in body
    ensures Scan(true, index, known, pre, body)
         == Frame(true, Min(index + |body|, MaxIndex), known, pre + body, [], Waiting)
    decreases |body|
  {
    if body == [] {
      assert pre + body == pre;
    } else {
      assert '>' !in body[1..];
      CollectsWithoutEnd(Min(index + 1, MaxIndex), known, pre + [body[0]], body[1..]);
      assert pre + [body[0]] + body[1..] == pre + body;
    }
  }

  /**
   * The framing theorem: from the idle state, junk without '<', then "<", a body
   * without '>', then ">" completes exactly one command, whose line is the body cut
   * to 63 bytes and at its first NUL, and leaves the rest unread.
   */
  lemma {:induction false} FramesOneCommand(junk: seq<char>, body: string, rest: seq<char>)
    requires '<' !in junk && '>' !in body
    ensures Call(false, 0, junk + "<" + body + ">" + rest)
         == Frame(false, 0, true, body, rest, Complete(CString(body[..Min(|body|, MaxIndex)])))
  {
    var rx := "<" + body + ">" + rest;
    assert junk + "<" + body + ">" + rest == junk + rx;
    SkipsUntilStart(junk, true, [], rx);
    assert rx[0] == '<' && rx[1..] == body + ">" + rest;
    CollectsUntilEnd(0, true, [], body, rest);
    assert [] + body == body;
  }

  /** A command of at most 63 bytes without NUL reaches runCommand unchanged. */
  lemma {:induction false} ShortLineIntact(body: string)
    requires |body| <= MaxIndex && '\0' !in body
    ensures CString(body[..Min(|body|, MaxIndex)]) == body
  {
    assert body[..Min(|body|, MaxIndex)] == body;
    IndexOfNone(body);
  }

  lemma {:induction false} IndexOfNone(s: string)
    requires '\0' !in s
    ensures IndexOf(s, '\0') == |s|
  {
  }

  /** A longer command is cut to its first 63 bytes: the later bytes all land in cmd[63], which the NUL overwrites. */
  lemma {:induction false} LongLineTruncated(body: string)
    requires |body| > MaxIndex && '\0' !in body
    ensures CString(body[..Min(|body|, MaxIndex)]) == body[..MaxIndex]
  {
    assert '\0' !in body[..MaxIndex];
    IndexOfNone(body[..MaxIndex]);
  }

  /** While no command completes, feeding the bytes in two parts ends in the same framing state as feeding them at once. */
  lemma {:induction false} ScanSplits(isCmd: bool, index: nat, known: bool, body: string, x: seq<char>, y: seq<char>)
    requires StateOk(isCmd, index)
    requires Scan(isCmd, index, known, body, x).outcome.Waiting?
    ensures var f := Scan(isCmd, index, known, body, x);
            Scan(isCmd, index, known, body, x + y) == Scan(f.isCmd, f.index, f.known, f.body, y)
    decreases |x|
  {
    if x == [] {
      assert x + y == y;
    } else {
      assert (x + y)[0] == x[0] && (x + y)[1..] == x[1..] + y;
      if isCmd {
        if x[0] != '>' {
          ScanSplits(true, Min(index + 1, MaxIndex), known, body + [x[0]], x[1..], y);
        }
      } else if x[0] == '<' {
        ScanSplits(true, index, true, [], x[1..], y);
      } else {
        ScanSplits(false, index, known, body, x[1..], y);
      }
    }
  }

  /**
   * isCmd and index persist between calls: a call that completes nothing leaves
   * the framing state from which the next call goes on exactly as one long call
   * would, as far as isCmd, index, the unread input and whether a line completes.
   */
  lemma {:induction false} StatePersistsAcrossCalls(isCmd: bool, index: nat, x: seq<char>, y: seq<char>)
    requires StateOk(isCmd, index)
    requires Call(isCmd, index, x).outcome.Waiting?
    ensures var f := Call(isCmd, index, x);
            var one, two := Call(isCmd, index, x + y), Call(f.isCmd, f.index, y);
            one.isCmd == two.isCmd && one.index == two.index && one.rest == two.rest
            && one.outcome.Waiting? == two.outcome.Waiting?
  {
    var f := Call(isCmd, index, x);
    ScanSplits(isCmd, index, KnownAtCall(isCmd, index), [], x, y);
    ControlIgnoresBuffer(f.isCmd, f.index, f.known, f.body, KnownAtCall(f.isCmd, f.index), [], y);
  }

  /** isCmd, index, the unread input and whether a line completes do not depend on the buffer. */
  lemma {:induction false} ControlIgnoresBuffer(isCmd: bool, index: nat, k1: bool, b1: string, k2: bool, b2: string, rx: seq<char>)
    requires StateOk(isCmd, index)
    ensures var f, g := Scan(isCmd, index, k1, b1, rx), Scan(isCmd, index, k2, b2, rx);
            f.isCmd == g.isCmd && f.index == g.index && f.rest == g.rest && f.outcome.Waiting? == g.outcome.Waiting?
    decreases |rx|
  {
    if rx != [] {
      if isCmd {
        if rx[0] != '>' {
          ControlIgnoresBuffer(true, Min(index + 1, MaxIndex), k1, b1 + [rx[0]], k2, b2 + [rx[0]], rx[1..]);
        }
      } else if rx[0] == '<' {
      } else {
        ControlIgnoresBuffer(false, index, k1, b1, k2, b2, rx[1..]);
      }
    }
  }

  /**
   * The buffer is not static: a command whose first bytes were stored by an earlier
   * call completes as Garbled, since this call's buffer starts uninitialised.
   */
  lemma {:induction false} ContinuedCommandGarbled(index: nat, body: string, rest: seq<char>)
    requires 0 < index <= MaxIndex && '>' !in body
    ensures Call(true, index, body + ">" + rest).outcome == Garbled
  {
    CollectsUntilEnd(index, false, [], body, rest);
  }

  /** A call that ends inside a command after storing bytes leaves index > 0, so the command is lost if it completes in a later call. */
  lemma {:induction false} PartialCommandLeavesIndex(junk: seq<char>, body: string)
    requires '<' !in junk && '>' !in body && |body| > 0
    ensures Call(false, 0, junk + "<" + body) == Frame(true, Min(|body|, MaxIndex), true, body, [], Waiting)
  {
    var rx := "<" + body;
    assert junk + "<" + body == junk + rx;
    SkipsUntilStart(junk, true, [], rx);
    assert rx[0] == '<' && rx[1..] == body;
    CollectsWithoutEnd(0, true, [], body);
    assert [] + body == body;
  }
}
