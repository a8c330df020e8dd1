/**
 * `str_representer`, registered with PyYAML for every `str`: for a string
 * that holds a line break it asks for a literal block scalar (`|`, section
 * 8.1.2 of YAML 1.2), and for any other string it leaves the style to the
 * emitter. The emitter itself, which may still refuse the requested style,
 * is not modelled.
 */
module YamlStyle {

  /** `style="|"` or no style argument (the emitter's default choice). */
  datatype ScalarStyle = Literal | EmitterDefault

  /** The node `represent_scalar` builds. */
  datatype ScalarNode = ScalarNode(tag: string, value: string, style: ScalarStyle)

  const StrTag := "tag:yaml.org,2002:str"

  /**
   * The node for a string: always tagged as a string and holding the string
   * unchanged; literal style exactly when the string contains a newline.
   */
  function StrRepresenter(data: string): (node: ScalarNode)
    ensures node.tag == StrTag && node.value == data
    ensures node.style == Literal <==> exists i :: 0 <= i < |data| && data[i] == '\n'
  {
    if '\n' in data then ScalarNode(StrTag, data, Literal) else ScalarNode(StrTag, data, EmitterDefault)
  }

  /** The lines of `s`: the pieces between its newlines. */
  function Lines(s: string): (ls: seq<string>)
    ensures |ls| >= 1
    ensures forall i :: 0 <= i < |ls| ==> '\n' !in ls[i]
    decreases |s|
  {
    if s == [] then [""]
    else
      var rest := Lines(s[1..]);
      if s[0] == '\n' then [""] + rest
      else [[s[0]] + rest[0]] + rest[1..]
  }

  /** The lines joined with newlines again. */
  function JoinLines(ls: seq<string>): string
    requires |ls| >= 1
    decreases |ls|
  {
    if |ls| == 1 then ls[0] else ls[0] + "\n" + JoinLines(ls[1..])
  }

  /** Splitting at the newlines and joining again gives the string back. */
  lemma {:induction false} JoinLinesOfLines(s: string)
    decreases |s|
    ensures JoinLines(Lines(s)) == s
  {
    if s != [] {
      var rest := Lines(s[1..]);
      JoinLinesOfLines(s[1..]);
      if s[0] == '\n' {
        assert Lines(s)[1..] == rest;
      } else {
        var ls := Lines(s);
        assert ls[0] == [s[0]] + rest[0];
        if |rest| == 1 {
          assert JoinLines(ls) == [s[0]] + rest[0];
        } else {
          assert ls[1..] == rest[1..];
          assert JoinLines(ls) == [s[0]] + rest[0] + "\n" + JoinLines(rest[1..]);
        }
      }
    }
  }

  /** A string has more than one line exactly when it contains a newline. */
  lemma {:induction false} LinesCount(s: string)
    decreases |s|
    ensures |Lines(s)| > 1 <==> '\n' in s
  {
    if s != [] {
      LinesCount(s[1..]);
      assert '\n' in s <==> s[0] == '\n' || '\n' in s[1..];
    }
  }

  /**
   * The literal style is chosen exactly for strings of more than one line,
   * and splitting such a string at its newlines loses nothing: the lines
   * joined with newlines are the string again. How the emitter lays the
   * block out is not modelled.
   */
  lemma LiteralForMultiline(data: string)
    ensures StrRepresenter(data).style == Literal <==> |Lines(data)| > 1
    ensures JoinLines(Lines(data)) == data
  {
    LinesCount(data);
    JoinLinesOfLines(data);
  }

  /** Literal style is requested for the two-line address of the sample record, and not for its one-line name. */
  lemma SampleRecordStyles()
    ensures StrRepresenter("Address line 1\nAddress line 2").style == Literal
    ensures StrRepresenter("This is the name").style == EmitterDefault
  {
    assert "Address line 1\nAddress line 2"[14] == '\n';
  }
}
