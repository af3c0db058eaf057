/** The line framing of SSDP datagrams (HTTP over UDP): every start line and header
    line ends with CR LF, and an empty line ends the message. `Frame` writes a list of
    lines that way; `ParseLines` reads such a message back into its lines, so the
    lines a message is built from can be stated and recovered exactly. */
module CrlfLines {
  import opened Common

  const CRLF: string := "\r\n"

  /** A line holds no carriage return (so it cannot end early). */
  predicate NoCr(s: string) { '\r' !in s }

  /** A header line: not empty (an empty line ends the message) and without CR. */
  predicate WellFormed(lines: seq<string>)
  {
    forall i | 0 <= i < |lines| :: lines[i] != "" && NoCr(lines[i])
  }

  /** The lines, each followed by CR LF. */
  function Joined(lines: seq<string>): string
  {
    if lines == [] then "" else lines[0] + CRLF + Joined(lines[1..])
  }

  /** A whole message: the lines, then the empty line. */
  function Frame(lines: seq<string>): string
  {
    Joined(lines) + CRLF
  }

  /** The text before the first CR, which must be followed by LF, and what follows. */
  function ReadLine(t: string): (r: Option<(string, string)>)
    ensures r.Some? ==> NoCr(r.value.0) && t == r.value.0 + CRLF + r.value.1
  {
    if |t| < 2 then None
    else if t[0] == '\r' then (if t[1] == '\n' then Some(("", t[2..])) else None)
    else match ReadLine(t[1..])
      case None => None
      case Some(p) => Some(([t[0]] + p.0, p.1))
  }

  /** Reads a message back into its lines; `None` when it is not CR LF framed or has
      anything after the empty line. */
  function ParseLines(t: string): (r: Option<seq<string>>)
    ensures r.Some? ==> WellFormed(r.value) && Frame(r.value) == t
    decreases |t|
  {
    match ReadLine(t)
    case None => None
    case Some(p) =>
      if p.0 == "" then (if p.1 == "" then Some([]) else None)
      else match ParseLines(p.1)
        case None => None
        case Some(ls) =>
          assert ([p.0] + ls)[1..] == ls;
          Some([p.0] + ls)
  }

  /** A line without CR is read back whole, up to the CR LF that ends it. */
  lemma {:induction false} ReadFramedLine(line: string, rest: string)
    requires NoCr(line)
    ensures ReadLine(line + CRLF + rest) == Some((line, rest))
  {
    var t := line + CRLF + rest;
    if line == [] {
      assert t[2..] == rest;
    } else {
      assert t[1..] == line[1..] + CRLF + rest;
      ReadFramedLine(line[1..], rest);
      assert [line[0]] + line[1..] == line;
    }
  }

  /** Parsing inverts framing: a message is read back into exactly its lines. */
  lemma {:induction false} ParseFrame(lines: seq<string>)
    requires WellFormed(lines)
    ensures ParseLines(Frame(lines)) == Some(lines)
  {
    if lines == [] {
      ReadFramedLine("", "");
    } else {
      var rest := lines[1..];
      assert WellFormed(rest) by {
        forall i | 0 <= i < |rest| ensures rest[i] != "" && NoCr(rest[i]) {
          assert rest[i] == lines[i + 1];
        }
      }
      var t := Frame(lines);
      assert t == lines[0] + CRLF + Frame(rest);
      ReadFramedLine(lines[0], Frame(rest));
      assert ReadLine(t) == Some((lines[0], Frame(rest)));
      ParseFrame(rest);
      assert [lines[0]] + rest == lines;
    }
  }

  /** So two messages are the same text exactly when they have the same lines. */
  lemma FrameInjective(a: seq<string>, b: seq<string>)
    requires WellFormed(a) && WellFormed(b)
    ensures Frame(a) == Frame(b) <==> a == b
  {
    if Frame(a) == Frame(b) {
      ParseFrame(a);
      ParseFrame(b);
    }
  }

  /** A message begins with its first line. */
  lemma FirstLinePrefix(lines: seq<string>)
    requires lines != []
    ensures lines[0] <= Frame(lines)
  {
    assert Frame(lines) == lines[0] + (CRLF + Joined(lines[1..]) + CRLF);
  }
}
