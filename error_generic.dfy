/**
 * The error record of libnvidia-container (src/error_generic.c): a code and an optional
 * message, reset and set in place. The formatted text of a call (what vasprintf produces
 * from the format and its arguments) is a parameter, and so is strerror's text.
 */
module ErrorGeneric {
  import opened Wrappers
  import Text

  /** `struct error`. */
  class Error {
    var code: int
    var msg: Option<string>

    constructor ()
      ensures code == 0 && msg.None?
    {
      code := 0;
      msg := None;
    }
  }

  /** The characters before the first newline (strcspn(s, "\n")). */
  function CutAtNewline(s: string): (r: string)
    ensures r <= s && '\n' !in r
    ensures |r| < |s| ==> s[|r|] == '\n'
  {
    s[..Text.IndexOf(s, '\n')]
  }

  /** strrchr(s, c): the index of the last `c` in `s`, if any. */
  function LastIndexOf(s: string, c: char): (r: Option<nat>)
    ensures r.Some? ==> r.value < |s|
  {
    if s == [] then None
    else if s[|s| - 1] == c then Some(|s| - 1)
    else LastIndexOf(s[..|s| - 1], c)
  }

  /** strrchr finds a `c` with none after it, and finds nothing only when there is no `c`. */
  lemma {:induction false} LastIndexOfMeaning(s: string, c: char)
    ensures var r := LastIndexOf(s, c);
      (r.Some? ==> s[r.value] == c && c !in s[r.value + 1..]) && (r.None? ==> c !in s)
    decreases |s|
  {
    if s != [] && s[|s| - 1] != c {
      var t := s[..|s| - 1];
      LastIndexOfMeaning(t, c);
      assert s == t + [s[|s| - 1]];
      var r := LastIndexOf(t, c);
      if r.Some? {
        assert s[r.value + 1..] == t[r.value + 1..] + [s[|s| - 1]];
      }
    }
  }

  /** str_lower over strrchr(s, ':'): the text from the last ':' on in lower case. */
  function LowerFromLastColon(s: string): (r: string)
    ensures |r| == |s|
  {
    match LastIndexOf(s, ':')
    case None => s
    case Some(i) => s[..i] + Text.LowerAll(s[i..])
  }

  /**
   * The message error_vset leaves: the text alone when there is no errmsg, otherwise
   * "text: errmsg" cut at the first newline and lowered from its last ':'.
   */
  function Compose(text: string, errmsg: Option<string>): string
  {
    match errmsg
    case None => text
    case Some(e) => LowerFromLastColon(CutAtNewline(text + ": " + e))
  }

  /**
   * A newline-free text survives composition intact: the lowering starts inside the
   * ": errmsg" part, which is cut at its own first newline.
   */
  lemma {:induction false} ComposeKeepsText(text: string, e: string)
    requires '\n' !in text
    ensures Compose(text, Some(e)) == text + LowerFromLastColon(CutAtNewline(": " + e))
  {
    assert text + ": " + e == text + (": " + e);
    NewlineAfter(text, ": " + e);
    var tail := CutAtNewline(": " + e);
    assert tail[0] == ':';
    LastColonAfter(text, tail);
  }

  /**
   * With an errmsg free of ':' and newlines (as strerror's texts are), the message is
   * "text: errmsg" with the errmsg in lower case.
   */
  lemma {:induction false} ComposeLowersErrmsg(text: string, e: string)
    requires '\n' !in text && '\n' !in e && ':' !in e
    ensures Compose(text, Some(e)) == text + (": " + Text.LowerAll(e))
  {
    var tail := ": " + e;
    assert CutAtNewline(tail) == tail by {
      CutWithoutNewline(tail);
    }
    assert LowerFromLastColon(tail) == ": " + Text.LowerAll(e) by {
      LowerAfterColon(e);
    }
    ComposeKeepsText(text, e);
  }

  /** A string without a newline is not cut. */
  lemma CutWithoutNewline(s: string)
    requires '\n' !in s
    ensures CutAtNewline(s) == s
  {
    Text.IndexOfIs(s, '\n', |s|);
  }

  /** ": " followed by a colon-free text is lowered from its leading ':'. */
  lemma LowerAfterColon(e: string)
    requires ':' !in e
    ensures LowerFromLastColon(": " + e) == ": " + Text.LowerAll(e)
  {
    ColonLeads(e);
    LowerWhole(": " + e);
    LowerColonPrefix(e);
  }

  lemma ColonLeads(e: string)
    requires ':' !in e
    ensures LastIndexOf(": " + e, ':') == Some(0)
  {
    var s := ": " + e;
    assert s[1..] == " " + e;
    LastIndexIs(s, ':', 0);
  }

  lemma LowerWhole(s: string)
    requires LastIndexOf(s, ':') == Some(0)
    ensures LowerFromLastColon(s) == Text.LowerAll(s)
  {
    assert s[..0] + Text.LowerAll(s[0..]) == Text.LowerAll(s) by {
      assert s[0..] == s;
    }
  }

  lemma LowerColonPrefix(e: string)
    ensures Text.LowerAll(": " + e) == ": " + Text.LowerAll(e)
  {
    Text.LowerConcat(": ", e);
    var head := Text.LowerAll(": ");
    assert head[0] == ':' && head[1] == ' ';
    assert head == ": ";
  }

  /** The first newline of `a + b`, for `a` without one, is that of `b` shifted by |a|. */
  lemma NewlineAfter(a: string, b: string)
    requires '\n' !in a
    ensures CutAtNewline(a + b) == a + CutAtNewline(b)
  {
    var k := Text.IndexOf(b, '\n');
    forall j | 0 <= j < |a| + k ensures (a + b)[j] != '\n' {
      if j >= |a| {
        assert (a + b)[j] == b[j - |a|];
      }
    }
    Text.IndexOfIs(a + b, '\n', |a| + k);
    assert (a + b)[..|a| + k] == a + b[..k];
  }

  /** When `b` holds a ':', lowering `a + b` from its last ':' leaves `a` alone. */
  lemma {:induction false} LastColonAfter(a: string, b: string)
    requires ':' in b
    ensures LowerFromLastColon(a + b) == a + LowerFromLastColon(b)
  {
    LastColonShift(a, b);
    var k := LastIndexOf(b, ':').value;
    var s := a + b;
    assert s[..|a| + k] == a + b[..k];
    assert s[|a| + k..] == b[k..];
    var lowered := Text.LowerAll(b[k..]);
    assert (a + b[..k]) + lowered == a + (b[..k] + lowered);
  }

  /** The last ':' of `a + b`, when `b` has one, is that of `b` shifted by |a|. */
  lemma {:induction false} LastColonShift(a: string, b: string)
    requires ':' in b
    ensures LastIndexOf(b, ':').Some?
    ensures LastIndexOf(a + b, ':') == Some(|a| + LastIndexOf(b, ':').value)
  {
    LastIndexOfMeaning(b, ':');
    var k := LastIndexOf(b, ':').value;
    assert (a + b)[|a| + k + 1..] == b[k + 1..];
    LastIndexIs(a + b, ':', |a| + k);
  }

  /** The last occurrence is determined by the character at it and those after it. */
  lemma {:induction false} LastIndexIs(s: string, c: char, k: nat)
    requires k < |s| && s[k] == c && c !in s[k + 1..]
    ensures LastIndexOf(s, c) == Some(k)
    decreases |s|
  {
    if k < |s| - 1 {
      assert s[|s| - 1] == s[k + 1..][|s| - 2 - k];
      var t := s[..|s| - 1];
      assert t[k + 1..] == s[k + 1..|s| - 1];
      LastIndexIs(t, c, k);
    }
  }

  /** error_reset: NULL is ignored; otherwise the message is freed and the code cleared. */
  method Reset(err: Error?)
    modifies err
    ensures err != null ==> err.msg.None? && err.code == 0
  {
    if err == null {
      return;
    }
    err.msg := None;
    err.code := 0;
  }

  /**
   * error_vset: NULL is a no-op returning 0; otherwise the previous message is discarded,
   * the code set, and the message composed. Allocation failures are not modelled.
   */
  method VSet(err: Error?, errcode: int, errmsg: Option<string>, text: string) returns (rv: int)
    modifies err
    ensures rv == 0
    ensures err != null ==> err.code == errcode && err.msg == Some(Compose(text, errmsg))
  {
    if err == null {
      return 0;
    }
    Reset(err);
    err.code := errcode;
    if errmsg.None? {
      err.msg := Some(text);
      return 0;
    }
    var full := text + ": " + errmsg.value;
    var cut := CutAtNewline(full);
    err.msg := Some(LowerFromLastColon(cut));
    rv := 0;
  }

  /** error_set: the code is errno and the suffix strerror(errno). */
  method Set(err: Error?, errno: int, strerror: string, text: string) returns (rv: int)
    modifies err
    ensures rv == 0
    ensures err != null ==> err.code == errno && err.msg == Some(Compose(text, Some(strerror)))
  {
    rv := VSet(err, errno, Some(strerror), text);
  }

  /** error_setx: the code is -1 and the message the text alone. */
  method SetX(err: Error?, text: string) returns (rv: int)
    modifies err
    ensures rv == 0
    ensures err != null ==> err.code == -1 && err.msg == Some(text)
  {
    rv := VSet(err, -1, None, text);
  }
}
