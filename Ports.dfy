/**
 * Reading the shared registry (`readPorts`): the registry is the sequence of
 * lines of the ports file, and a snapshot keeps, in file order, the value of
 * every line that parses as an integer, skipping the others.
 */
module Ports {
  import opened Wrappers
  import opened Decimal

  /** The ports a snapshot of the registry lines yields. */
  function ParsePorts(lines: seq<string>): (ports: seq<int>)
    ensures |ports| <= |lines|
  {
    if lines == [] then []
    else
      var init := lines[..|lines| - 1];
      match ParseInt(lines[|lines| - 1])
      case Some(p) => ParsePorts(init) + [p]
      case None => ParsePorts(init)
  }

  /** Every port in a snapshot is the value of some line of the registry. */
  lemma {:induction false} PortsComeFromLines(lines: seq<string>)
    ensures forall p :: p in ParsePorts(lines) ==> exists l :: l in lines && ParseInt(l) == Some(p)
  {
    if lines != [] {
      var init := lines[..|lines| - 1];
      var last := lines[|lines| - 1];
      PortsComeFromLines(init);
      assert forall l :: l in init ==> l in lines;
      assert last in lines;
    }
  }

  /** `readPorts`: a scanner loop that appends each line's value and skips lines that do not parse. */
  method ReadPorts(lines: seq<string>) returns (ports: seq<int>)
    ensures ports == ParsePorts(lines)
  {
    ports := [];
    var i := 0;
    while i < |lines|
      invariant 0 <= i <= |lines|
      invariant ports == ParsePorts(lines[..i])
    {
      assert lines[..i + 1][..i] == lines[..i];
      var parsed := ParseInt(lines[i]);
      if parsed.Some? {
        ports := ports + [parsed.value];
      }
      i := i + 1;
    }
    assert lines[..i] == lines;
  }

  /** Reading a registry in two parts gives the ports of the first part followed by those of the second. */
  lemma {:induction false} ParsePortsAppend(a: seq<string>, b: seq<string>)
    ensures ParsePorts(a + b) == ParsePorts(a) + ParsePorts(b)
  {
    if b == [] {
      assert a + b == a;
    } else {
      var b' := b[..|b| - 1];
      assert (a + b)[..|a + b| - 1] == a + b';
      ParsePortsAppend(a, b');
    }
  }

  /** A line that parses contributes exactly its value at its place; a line that does not is skipped. */
  lemma KeepsParsableSkipsOthers(before: seq<string>, line: string, after: seq<string>)
    ensures ParseInt(line).Some? ==>
      ParsePorts(before + [line] + after) == ParsePorts(before) + [ParseInt(line).value] + ParsePorts(after)
    ensures ParseInt(line).None? ==>
      ParsePorts(before + [line] + after) == ParsePorts(before) + ParsePorts(after)
  {
    ParsePortsAppend(before + [line], after);
    ParsePortsAppend(before, [line]);
    assert [] + [line] == [line];
  }

  /** When every line parses, the snapshot is the lines' values, one per line, in file order. */
  lemma {:induction false} AllParsableKeepsEveryLine(lines: seq<string>)
    requires forall i :: 0 <= i < |lines| ==> ParseInt(lines[i]).Some?
    ensures |ParsePorts(lines)| == |lines|
    ensures forall i :: 0 <= i < |lines| ==> ParsePorts(lines)[i] == ParseInt(lines[i]).value
  {
    if lines != [] {
      var init := lines[..|lines| - 1];
      assert forall i :: 0 <= i < |init| ==> init[i] == lines[i];
      AllParsableKeepsEveryLine(init);
      var ports := ParsePorts(init);
      var last := ParseInt(lines[|lines| - 1]);
      assert ParsePorts(lines) == ports + [last.value];
      forall i | 0 <= i < |lines|
        ensures ParsePorts(lines)[i] == ParseInt(lines[i]).value
      {
        if i < |init| {
          assert ParsePorts(lines)[i] == ports[i] == ParseInt(init[i]).value;
          assert init[i] == lines[i];
        } else {
          assert ParsePorts(lines)[i] == last.value;
        }
      }
    }
  }

  /** A registry none of whose lines parse yields no ports. */
  lemma {:induction false} NothingParsableYieldsNothing(lines: seq<string>)
    requires forall i :: 0 <= i < |lines| ==> ParseInt(lines[i]).None?
    ensures ParsePorts(lines) == []
  {
    if lines != [] {
      NothingParsableYieldsNothing(lines[..|lines| - 1]);
    }
  }
}
