/** A connection as two reliable byte queues, and the line framing on them. */
module Wire {
  import opened Wrappers

  const MAX_LINE: nat := 4096
  const IO_BUFFER: nat := 64 * 1024

  /** Reading a line byte by byte: carriage returns are dropped, an over-long line
      or the end of the data fails. */
  function TakeLine(data: string, acc: string): (r: Option<(string, string)>)
    decreases |data|
  {
    if data == "" then None
    else if data[0] == '\n' then Some((acc, data[1..]))
    else if data[0] == '\r' then TakeLine(data[1..], acc)
    else if |acc| >= MAX_LINE then None
    else TakeLine(data[1..], acc + [data[0]])
  }

  predicate Sendable(line: string) {
    '\n' !in line && '\r' !in line && |line| <= MAX_LINE
  }

  /** What is left of a line that goes over the wire. */
  function NoReturns(line: string): (r: string)
    ensures '\r' !in r && ('\n' !in line ==> '\n' !in r)
    ensures '\r' !in line ==> r == line
  {
    if line == "" then ""
    else
      assert line[0] in line && forall c :: c in line[1..] ==> c in line;
      assert line == [line[0]] + line[1..];
      (if line[0] == '\r' then "" else [line[0]]) + NoReturns(line[1..])
  }

  lemma {:induction false} NoReturnsJoin(a: string, b: string)
    ensures NoReturns(a + b) == NoReturns(a) + NoReturns(b)
  {
    if a == "" {
      assert a + b == b;
    } else {
      assert (a + b)[1..] == a[1..] + b;
      NoReturnsJoin(a[1..], b);
    }
  }

  /** A sent line is received without its carriage returns, unless it is too long. */
  lemma {:induction false} TakeFramed(line: string, rest: string, acc: string)
    requires '\n' !in line && |acc| <= MAX_LINE
    ensures TakeLine(line + "\n" + rest, acc) ==
      if |acc| + |NoReturns(line)| <= 4096 then Some((acc + NoReturns(line), rest)) else None
    decreases |line|
  {
    var data := line + "\n" + rest;
    if line == "" {
      assert data[1..] == rest && acc + line == acc;
    } else {
      assert line[0] in line && data[1..] == line[1..] + "\n" + rest;
      if line[0] == '\r' {
        assert NoReturns(line) == NoReturns(line[1..]);
        TakeFramed(line[1..], rest, acc);
      } else {
        assert NoReturns(line) == [line[0]] + NoReturns(line[1..]);
        if |acc| < MAX_LINE {
          TakeFramed(line[1..], rest, acc + [line[0]]);
          assert acc + [line[0]] + NoReturns(line[1..]) == acc + NoReturns(line);
        }
      }
    }
  }

  /** A sent line is received as it was sent, and nothing after it is touched. */
  lemma {:induction false} LineRoundTrip(line: string, rest: string)
    requires Sendable(line)
    ensures TakeLine(line + "\n" + rest, "") == Some((line, rest))
  {
    TakeFramed(line, rest, "");
    assert "" + NoReturns(line) == line;
  }

  lemma {:induction false} TakeShrinks(data: string, acc: string)
    ensures TakeLine(data, acc).Some? ==> |TakeLine(data, acc).value.1| < |data|
    decreases |data|
  {
    if data != "" && data[0] != '\n' {
      if data[0] == '\r' {
        TakeShrinks(data[1..], acc);
      } else if |acc| < MAX_LINE {
        TakeShrinks(data[1..], acc + [data[0]]);
      }
    }
  }

  class Pipe {
    var data: string

    constructor ()
      ensures data == ""
    {
      data := "";
    }

    method Send(bytes: string)
      modifies this
      ensures data == old(data) + bytes
    {
      data := data + bytes;
    }

    method SendLine(line: string)
      modifies this
      ensures data == old(data) + (line + "\n")
    {
      Send(line + "\n");
    }

    /** Exactly n bytes, or a broken connection. */
    method Recv(n: nat) returns (ok: bool, bytes: string)
      modifies this
      ensures ok <==> n <= |old(data)|
      ensures ok ==> bytes == old(data)[..n] && data == old(data)[n..]
      ensures !ok ==> data == ""
    {
      if n > |data| {
        data := "";
        return false, "";
      }
      bytes := data[..n];
      data := data[n..];
      return true, bytes;
    }

    method ReadLine() returns (ok: bool, line: string)
      modifies this
      ensures match TakeLine(old(data), "")
        case None => !ok && data == ""
        case Some((l, rest)) => ok && line == l && data == rest
    {
      line := "";
      while data != ""
        invariant TakeLine(data, line) == TakeLine(old(data), "")
        decreases |data|
      {
        var c := data[0];
        data := data[1..];
        if c == '\n' {
          return true, line;
        }
        if c == '\r' {
          continue;
        }
        if |line| >= MAX_LINE {
          data := "";
          return false, line;
        }
        line := line + [c];
      }
      return false, line;
    }
  }
}
