/**
 * The /proc files parse_proc_file reads (src/nvc_container.c and its older copy): a file
 * either cannot be opened, or yields its lines one getline call at a time until its
 * contents run out, after which getline fails with end of file or with a read error.
 */
module ProcRead {
  import opened Wrappers
  import Text
  import Nvc

  /**
   * A file as fopen and getline see it. `failure` is the error getline meets once the
   * contents are used up; None means it meets end of file. A last line without a newline
   * runs into it while it is read: getline returns that line with the stream's error or
   * end-of-file indicator already set.
   */
  datatype ProcFile = Unopenable(e: Nvc.Errno) | Readable(content: string, failure: Option<Nvc.Errno>)

  /** The successive results of getline: each line with its newline, the last maybe without. */
  function Getlines(content: string): (r: seq<string>)
    ensures forall k :: 0 <= k < |r| ==> r[k] != []
    ensures content == [] <==> r == []
    decreases |content|
  {
    if content == [] then []
    else
      var i := Text.IndexOf(content, '\n');
      if i == |content| then [content] else [content[..i + 1]] + Getlines(content[i + 1..])
  }

  /** The contents end in a line without a newline: getline reaches end of file reading it. */
  predicate EndsOpen(content: string)
  {
    content != [] && content[|content| - 1] != '\n'
  }

  /** A newline-terminated line comes out of getline whole, before the rest of the file. */
  lemma GetlinesCons(line: string, rest: string)
    requires '\n' !in line
    ensures Getlines(line + "\n" + rest) == [line + "\n"] + Getlines(rest)
  {
    var s := line + "\n" + rest;
    Text.IndexOfIs(s, '\n', |line|);
    assert s[..|line| + 1] == line + "\n" && s[|line| + 1..] == rest;
  }

  /** A terminated line in front leaves the end of the contents as it was. */
  lemma EndsOpenCons(line: string, rest: string)
    ensures EndsOpen(line + "\n" + rest) == EndsOpen(rest)
  {
    var s := line + "\n" + rest;
    if rest != [] {
      assert s[|s| - 1] == rest[|rest| - 1];
    }
  }

  /** A file holding one line without a newline yields that line, reaching end of file. */
  lemma GetlinesOpen(line: string)
    requires line != [] && '\n' !in line
    ensures Getlines(line) == [line] && EndsOpen(line)
  {
    Text.IndexOfIs(line, '\n', |line|);
  }

  /** The index and result of the first line `f` accepts, if any. */
  function FirstAccepted<T>(lines: seq<string>, f: string -> Option<T>): (r: Option<(nat, T)>)
    ensures r.Some? ==> r.value.0 < |lines| && f(lines[r.value.0]) == Some(r.value.1)
    ensures r.Some? ==> forall j :: 0 <= j < r.value.0 ==> f(lines[j]).None?
    ensures r.None? ==> forall j :: 0 <= j < |lines| ==> f(lines[j]).None?
    decreases |lines|
  {
    if lines == [] then None
    else if f(lines[0]).Some? then Some((0, f(lines[0]).value))
    else
      match FirstAccepted(lines[1..], f)
      case None => None
      case Some((k, v)) => Some((k + 1, v))
  }

  /** The first accepted line is the one every earlier line is rejected before. */
  lemma FirstAcceptedIs<T>(lines: seq<string>, f: string -> Option<T>, k: nat)
    requires k <= |lines| && forall j :: 0 <= j < k ==> f(lines[j]).None?
    requires k < |lines| ==> f(lines[k]).Some?
    ensures FirstAccepted(lines, f) == if k == |lines| then None else Some((k, f(lines[k]).value))
  {
  }

  /** A rejected line ahead of the others shifts the first accepted one by one place. */
  lemma FirstAcceptedSkip<T>(line: string, lines: seq<string>, f: string -> Option<T>)
    requires f(line).None?
    ensures FirstAccepted([line] + lines, f) ==
      match FirstAccepted(lines, f)
      case None => None
      case Some((k, v)) => Some((k + 1, v))
  {
    assert ([line] + lines)[1..] == lines;
  }
}
