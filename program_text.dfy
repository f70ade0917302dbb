/** The generator `code` of src/main.rs: the statement buffer spliced into a fixed Rust program. */
module ProgramText {
  import opened Wrappers

  /** Everything `code` emits before the statements: a leading newline, the crate-wide
      `#![allow(unused)]`, and the opening of `main` and of the block bound to `x`. */
  const Header: string := "\n#![allow(unused)]\n\nfn main() {\nlet x = {\n"

  /** Everything `code` emits after the statements: the close of the block, the debug
      print of its value and the close of `main`. */
  const Footer: string := "\n};\nprintln!(\"{x:?}\");\n}\n"

  /** Each statement followed by a newline, in buffer order. */
  function Body(lines: seq<string>): string {
    if lines == [] then "" else lines[0] + "\n" + Body(lines[1..])
  }

  /** The program text for a buffer. */
  function Code(lines: seq<string>): string {
    Header + Body(lines) + Footer
  }

  /** The loop of `code`: push each line and a newline onto a growing body, then format. */
  method GenerateCode(lines: seq<string>) returns (code: string)
    ensures code == Code(lines)
  {
    var body := "";
    for i := 0 to |lines|
      invariant body == Body(lines[..i])
    {
      BodyAppend(lines[..i], lines[i]);
      assert lines[..i + 1] == lines[..i] + [lines[i]];
      body := body + lines[i];
      body := body + "\n";
    }
    assert lines[..|lines|] == lines;
    code := Header + body + Footer;
  }

  /** Adding a statement at the end of the buffer adds its line at the end of the body. */
  lemma {:induction false} BodyAppend(lines: seq<string>, line: string)
    ensures Body(lines + [line]) == Body(lines) + line + "\n"
  {
    if lines == [] {
      assert [] + [line] == [line];
    } else {
      assert (lines + [line])[1..] == lines[1..] + [line];
      BodyAppend(lines[1..], line);
    }
  }

  /** The body of two buffers placed end to end is the two bodies placed end to end. */
  lemma {:induction false} BodyConcat(a: seq<string>, b: seq<string>)
    ensures Body(a + b) == Body(a) + Body(b)
  {
    if a == [] {
      assert a + b == b;
    } else {
      assert (a + b)[1..] == a[1..] + b;
      BodyConcat(a[1..], b);
    }
  }

  /** An empty buffer gives the header immediately followed by the footer: an empty block. */
  lemma CodeEmpty()
    ensures Code([]) == Header + Footer
  {
  }

  /** Pushing a statement inserts its line just before the footer and changes nothing else. */
  lemma CodeAppend(lines: seq<string>, line: string)
    ensures var prefix := Header + Body(lines);
            Code(lines) == prefix + Footer && Code(lines + [line]) == prefix + line + "\n" + Footer
  {
    BodyAppend(lines, line);
  }

  /** Statement `k` stands in the program at a fixed offset, directly after the earlier ones. */
  lemma {:induction false} CodeOrder(lines: seq<string>, k: nat)
    requires k < |lines|
    ensures var at := |Header| + |Body(lines[..k])|;
            at + |lines[k]| < |Code(lines)| && Code(lines)[at..at + |lines[k]| + 1] == lines[k] + "\n"
  {
    assert lines == lines[..k] + [lines[k]] + lines[k + 1..];
    BodyConcat(lines[..k] + [lines[k]], lines[k + 1..]);
    BodyAppend(lines[..k], lines[k]);
  }

  // Reading a program back into its statements.

  /** The index of the first newline in `s`, or `|s|` if there is none. */
  function NewlineIndex(s: string): (i: nat)
    ensures i <= |s| && (i < |s| ==> s[i] == '\n')
    ensures forall k :: 0 <= k < i ==> s[k] != '\n'
  {
    if s == [] || s[0] == '\n' then 0 else 1 + NewlineIndex(s[1..])
  }

  /** Splits a text of newline-terminated lines into the lines; `None` when the last line
      has no terminating newline. */
  function SplitLines(s: string): Option<seq<string>>
    decreases |s|
  {
    if s == [] then Some([])
    else
      var i := NewlineIndex(s);
      if i == |s| then None
      else match SplitLines(s[i + 1..])
        case None => None
        case Some(rest) => Some([s[..i]] + rest)
  }

  /** Recovers the statement buffer from a program text, if the text is one `code` could produce. */
  function ParseProgram(text: string): Option<seq<string>> {
    if |text| >= |Header| + |Footer| && text[..|Header|] == Header && text[|text| - |Footer|..] == Footer
    then SplitLines(text[|Header|..|text| - |Footer|])
    else None
  }

  predicate NoNewlines(lines: seq<string>) {
    forall j :: 0 <= j < |lines| ==> '\n' !in lines[j]
  }

  lemma {:induction false} SplitBody(lines: seq<string>)
    requires NoNewlines(lines)
    ensures SplitLines(Body(lines)) == Some(lines)
  {
    if lines != [] {
      var s := Body(lines);
      var l := lines[0];
      assert s == l + "\n" + Body(lines[1..]);
      assert s[|l|] == '\n';
      assert forall k :: 0 <= k < |l| ==> s[k] == l[k] && s[k] != '\n';
      assert NewlineIndex(s) == |l|;
      assert s[|l| + 1..] == Body(lines[1..]);
      assert s[..|l|] == l;
      SplitBody(lines[1..]);
      assert [lines[0]] + lines[1..] == lines;
    }
  }

  /** The program text determines the buffer: parsing it back gives the statements, in order. */
  lemma ParseCode(lines: seq<string>)
    requires NoNewlines(lines)
    ensures ParseProgram(Code(lines)) == Some(lines)
  {
    var text := Code(lines);
    assert text[..|Header|] == Header;
    assert text[|text| - |Footer|..] == Footer;
    assert text[|Header|..|text| - |Footer|] == Body(lines);
    SplitBody(lines);
  }

  /** Different buffers give different programs (for statements that are single lines). */
  lemma CodeInjective(a: seq<string>, b: seq<string>)
    requires NoNewlines(a) && NoNewlines(b)
    requires Code(a) == Code(b)
    ensures a == b
  {
    ParseCode(a);
    ParseCode(b);
  }
}
