/**
 * Go's lexical path functions on Unix (path.Join, path/filepath.Join and the Clean they
 * end with), used wherever the Go code builds the location of config.json or of the
 * hook binary.
 */
module GoPath {
  import Text

  /** A path element that Clean keeps as it is. */
  predicate IsName(e: string) { e != "" && e != "." && e != ".." }

  /** Clean's treatment of one element: drop "" and ".", let ".." undo a name. */
  function Step(kept: seq<string>, e: string, rooted: bool): seq<string>
  {
    if e == "" || e == "." then kept
    else if e == ".." then
      if |kept| > 0 && kept[|kept| - 1] != ".." then kept[..|kept| - 1]
      else if rooted then kept
      else kept + [".."]
    else kept + [e]
  }

  function Reduce(kept: seq<string>, elems: seq<string>, rooted: bool): seq<string>
    decreases |elems|
  {
    if elems == [] then kept else Reduce(Step(kept, elems[0], rooted), elems[1..], rooted)
  }

  lemma {:induction false} ReduceSnoc(kept: seq<string>, elems: seq<string>, e: string, rooted: bool)
    ensures Reduce(kept, elems + [e], rooted) == Step(Reduce(kept, elems, rooted), e, rooted)
    decreases |elems|
  {
    if elems != [] {
      assert (elems + [e])[1..] == elems[1..] + [e];
      ReduceSnoc(Step(kept, elems[0], rooted), elems[1..], e, rooted);
    }
  }

  /** path.Clean: the shortest lexically equivalent path. */
  function Clean(p: string): string
  {
    if p == "" then "."
    else
      var rooted := p[0] == '/';
      var body := Text.Join(Reduce([], Text.Split(p, '/'), rooted), "/");
      if rooted then "/" + body else if body == "" then "." else body
  }

  /** path.Join / filepath.Join of two elements on Unix. */
  function Join(a: string, b: string): string
  {
    if a == "" && b == "" then ""
    else if a == "" then Clean(b)
    else if b == "" then Clean(a)
    else Clean(a + "/" + b)
  }

  /** Joining a directory with a plain file name yields a path whose last element is that name. */
  lemma JoinSnoc(kept: seq<string>, name: string)
    ensures Text.Join(kept + [name], "/") == if kept == [] then name else Text.Join(kept, "/") + "/" + name
  {
    if kept != [] {
      assert (kept + [name])[..|kept|] == kept;
    }
  }

  lemma SuffixAfter(x: string, tail: string)
    ensures Text.HasSuffix(x + tail, tail)
  {
    assert (x + tail)[|x|..] == tail;
  }

  lemma {:induction false} ReduceJoined(dir: string, name: string, rooted: bool)
    requires IsName(name) && '/' !in name
    ensures Reduce([], Text.Split(dir + "/" + name, '/'), rooted)
         == Reduce([], Text.Split(dir, '/'), rooted) + [name]
  {
    Text.SplitNoSeparator(name, '/');
    assert dir + "/" + name == dir + ['/'] + name;
    Text.SplitConcat(dir, '/', name);
    ReduceSnoc([], Text.Split(dir, '/'), name, rooted);
  }

  lemma {:induction false} JoinWithName(dir: string, name: string)
    requires IsName(name) && '/' !in name
    ensures var r := Join(dir, name); r == name || Text.HasSuffix(r, "/" + name)
  {
    if dir == "" {
      Text.SplitNoSeparator(name, '/');
      assert Reduce([], [name], false) == [name];
    } else {
      JoinDirName(dir, name);
    }
  }

  lemma {:induction false} JoinDirName(dir: string, name: string)
    requires IsName(name) && '/' !in name && dir != ""
    ensures var r := Clean(dir + "/" + name); r == name || Text.HasSuffix(r, "/" + name)
  {
    var p := dir + "/" + name;
    var rooted := p[0] == '/';
    var kept := Reduce([], Text.Split(dir, '/'), rooted);
    ReduceJoined(dir, name, rooted);
    CleanedEndsWith(kept, name, rooted);
  }

  /** Elements none of which holds the separator. */
  predicate Plain(elems: seq<string>)
  {
    forall i :: 0 <= i < |elems| ==> '/' !in elems[i]
  }

  /** Elements as Clean keeps them: plain, and neither empty nor ".". */
  predicate Kept(elems: seq<string>)
  {
    Plain(elems) && forall i :: 0 <= i < |elems| ==> elems[i] != "" && elems[i] != "."
  }

  /** No piece of a split holds the separator. */
  lemma {:induction false} SplitPiecesPlain(s: string)
    ensures Plain(Text.Split(s, '/'))
    decreases |s|
  {
    var n := Text.IndexOf(s, '/');
    assert '/' !in s[..n];
    if n < |s| {
      SplitPiecesPlain(s[n + 1..]);
      var r := Text.Split(s, '/');
      assert r == [s[..n]] + Text.Split(s[n + 1..], '/');
      forall i | 0 <= i < |r| ensures '/' !in r[i] {
        if i > 0 {
          assert r[i] == Text.Split(s[n + 1..], '/')[i - 1];
        }
      }
    } else {
      assert s[..n] == s;
    }
  }

  /** Clean keeps only elements that are neither empty nor "." and hold no separator. */
  lemma {:induction false} ReduceKeepsNames(kept: seq<string>, elems: seq<string>, rooted: bool)
    requires Kept(kept) && Plain(elems)
    ensures Kept(Reduce(kept, elems, rooted))
    decreases |elems|
  {
    if elems != [] {
      StepKeepsNames(kept, elems[0], rooted);
      assert Plain(elems[1..]) by {
        forall i | 0 <= i < |elems[1..]| ensures '/' !in elems[1..][i] {
          assert elems[1..][i] == elems[i + 1];
        }
      }
      ReduceKeepsNames(Step(kept, elems[0], rooted), elems[1..], rooted);
    }
  }

  lemma StepKeepsNames(kept: seq<string>, e: string, rooted: bool)
    requires Kept(kept) && '/' !in e
    ensures Kept(Step(kept, e, rooted))
  {
    var next := Step(kept, e, rooted);
    if e == "" || e == "." {
      assert next == kept;
    } else if e == ".." {
      assert forall i :: 0 <= i < |next| ==> next[i] == ".." || next[i] == kept[i];
    } else {
      assert next == kept + [e];
    }
  }

  /** Joining one or more such elements gives neither "", "." nor "/". */
  lemma JoinedNames(kept: seq<string>)
    requires kept != [] && Kept(kept)
    ensures var j := Text.Join(kept, "/"); j != "" && j != "." && j != "/"
  {
    if |kept| >= 2 {
      assert |Text.Join(kept, "/")| >= 3;
    } else {
      assert Text.Join(kept, "/") == kept[0];
    }
  }

  /**
   * Joining a directory with a plain file name: the name alone when the directory
   * cleans to ".", "/" and the name at the root, the cleaned directory, "/" and the
   * name otherwise.
   */
  lemma {:induction false} JoinValue(dir: string, name: string)
    requires IsName(name) && '/' !in name
    ensures var c := Clean(dir);
      Join(dir, name) == if c == "." then name else if c == "/" then "/" + name else c + "/" + name
  {
    if dir == "" {
      Text.SplitNoSeparator(name, '/');
      assert Reduce([], [name], false) == [name];
    } else {
      var rooted := dir[0] == '/';
      var p := dir + "/" + name;
      assert p[0] == dir[0];
      var kept := Reduce([], Text.Split(dir, '/'), rooted);
      ReduceJoined(dir, name, rooted);
      SplitPiecesPlain(dir);
      ReduceKeepsNames([], Text.Split(dir, '/'), rooted);
      AssembledValue(kept, name, rooted);
    }
  }

  /** JoinValue on Clean's final assembly of the kept elements, with and without `name`. */
  lemma AssembledValue(kept: seq<string>, name: string, rooted: bool)
    requires Kept(kept) && name != ""
    ensures var body := Text.Join(kept, "/");
      var c := if rooted then "/" + body else if body == "" then "." else body;
      var full := Text.Join(kept + [name], "/");
      (if rooted then "/" + full else if full == "" then "." else full) ==
        if c == "." then name else if c == "/" then "/" + name else c + "/" + name
  {
    JoinSnoc(kept, name);
    var body := Text.Join(kept, "/");
    if kept != [] {
      JoinedNames(kept);
      if rooted {
        assert |"/" + body| >= 2;
        assert "/" + (body + "/" + name) == ("/" + body) + "/" + name;
      }
    }
  }

  /** Clean's final assembly of kept elements ending in `name` ends in that name. */
  lemma {:induction false} CleanedEndsWith(kept: seq<string>, name: string, rooted: bool)
    requires name != ""
    ensures var body := Text.Join(kept + [name], "/");
      var r := if rooted then "/" + body else if body == "" then "." else body;
      r == name || Text.HasSuffix(r, "/" + name)
  {
    JoinSnoc(kept, name);
    var body := Text.Join(kept + [name], "/");
    if kept != [] {
      var front := Text.Join(kept, "/");
      assert body == front + ("/" + name);
      SuffixAfter(front, "/" + name);
      if rooted {
        assert "/" + body == ("/" + front) + ("/" + name);
        SuffixAfter("/" + front, "/" + name);
      }
    } else if rooted {
      assert "/" + body == "/" + name;
      SuffixAfter("", "/" + name);
    }
  }
}
