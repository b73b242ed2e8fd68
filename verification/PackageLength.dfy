/**
 How long the text of a compacted package is, which is what it is charged for: a dictionary with
 fixed keys, written as Python writes dictionaries, lists and strings. Only lengths are modelled.
 */
module PackageLength {
  import opened TokenBudget

  // ----- strings

  /**
   The width of one character inside quotes: itself if printable, a short escape, or two, four or
   eight hexadecimal digits. Which characters beyond ASCII are printable is a parameter.
   */
  function Width(printable: char -> bool, c: char): (w: nat)
    ensures 1 <= w <= 10
  {
    if c == '\\' || c == '\t' || c == '\n' || c == '\r' then 2
    else if ' ' <= c <= '~' || (c > '~' && printable(c)) then 1
    else if c as int <= 0xFF then 4
    else if c as int <= 0xFFFF then 6
    else 10
  }

  /** The delimiter is escaped if it occurs; the backslash makes it two characters wide. */
  function Escaped(printable: char -> bool, s: string, delimiter: char): nat {
    if s == "" then 0
    else
      var c := s[|s| - 1];
      Escaped(printable, s[..|s| - 1], delimiter) + (if c == delimiter then 2 else Width(printable, c))
  }

  /** Single quotes, unless the text holds one and no double quote. */
  function Delimiter(s: string): char {
    if '\'' in s && '"' !in s then '"' else '\''
  }

  function Quoted(printable: char -> bool, s: string): nat {
    Escaped(printable, s, Delimiter(s)) + 2
  }

  lemma OneMore(w: nat, n: nat)
    ensures w * (n + 1) == w * n + w
  {
  }

  lemma {:induction false} EscapedAtMost(printable: char -> bool, s: string, delimiter: char, w: nat)
    requires w >= 2 && forall i :: 0 <= i < |s| ==> Width(printable, s[i]) <= w
    ensures Escaped(printable, s, delimiter) <= w * |s|
  {
    if s != "" {
      EscapedAtMost(printable, s[..|s| - 1], delimiter, w);
      OneMore(w, |s| - 1);
    }
  }

  lemma {:induction false} EscapedExactly(printable: char -> bool, s: string, w: nat)
    requires forall i :: 0 <= i < |s| ==> Width(printable, s[i]) == w && s[i] != '\''
    ensures Escaped(printable, s, '\'') == w * |s| && Delimiter(s) == '\''
  {
    if s != "" {
      EscapedExactly(printable, s[..|s| - 1], w);
      OneMore(w, |s| - 1);
    }
  }

  // ----- lists and the dictionary

  function Joined(lengths: seq<nat>): nat {
    if lengths == [] then 0
    else if |lengths| == 1 then lengths[0]
    else Joined(lengths[..|lengths| - 1]) + 2 + lengths[|lengths| - 1]
  }

  /** Brackets around items that are separated by a comma and a space. */
  function List(lengths: seq<nat>): (r: nat)
    ensures r >= 2 && (lengths == [] ==> r == 2)
  {
    2 + Joined(lengths)
  }

  function TextLengths(printable: char -> bool, texts: seq<string>): seq<nat> {
    seq(|texts|, i requires 0 <= i < |texts| => Quoted(printable, texts[i]))
  }

  function NodeLengths(nodes: seq<NodeEntry>): seq<nat> {
    seq(|nodes|, i requires 0 <= i < |nodes| => |nodes[i].text|)
  }

  function EdgeLengths(edges: seq<EdgeEntry>): seq<nat> {
    seq(|edges|, i requires 0 <= i < |edges| => |edges[i].text|)
  }

  function FileLengths(files: seq<FileEntry>): seq<nat> {
    seq(|files|, i requires 0 <= i < |files| => |files[i]|)
  }

  // The keys, with the punctuation around them and the constant schema version.
  const OPENING: nat := 57       // {'schema_version': 'context-package/v2', 'package_hash':
  const GRAPH_HASH: nat := 16    // , 'graph_hash':
  const REASON: nat := 12        // , 'reason':
  const LISTS: nat := 70         // , 'seed_node_ids': and so on for requirements, nodes, edges and files
  const TRUNCATED: nat := 15     // , 'truncated':

  function ListLengths(printable: char -> bool, p: Payload): nat {
    List(TextLengths(printable, p.seeds)) + List(TextLengths(printable, p.requirements)) +
    List(NodeLengths(p.nodes)) + List(EdgeLengths(p.edges)) + List(FileLengths(p.files))
  }

  function HeaderLength(printable: char -> bool, h: Header): nat {
    OPENING + Quoted(printable, h.packageHash) + GRAPH_HASH + Quoted(printable, h.graphHash) + REASON +
    Quoted(printable, h.reason) + LISTS + TRUNCATED + (if h.truncated then 4 else 5) + 1
  }

  /** The length of the whole text. */
  function Length(printable: char -> bool, h: Header, p: Payload): nat {
    HeaderLength(printable, h) + ListLengths(printable, p)
  }

  /** What a payload costs. */
  function SizeOf(printable: char -> bool, h: Header): Payload -> nat {
    p => EstimateLength(Length(printable, h, p))
  }

  /** No payload is written shorter than the bare header. */
  lemma BareHeaderIsSmallest(printable: char -> bool, h: Header)
    ensures HeaderIsSmallest(SizeOf(printable, h))
  {
    forall p: Payload ensures SizeOf(printable, h)(HEADER) <= SizeOf(printable, h)(p) {
      assert ListLengths(printable, HEADER) == 10 <= ListLengths(printable, p);
    }
  }

  predicate IsHexHash(s: string) {
    |s| == 64 && forall i :: 0 <= i < |s| ==> '0' <= s[i] <= '9' || 'a' <= s[i] <= 'f'
  }

  lemma HashLength(printable: char -> bool, s: string)
    requires IsHexHash(s)
    ensures Quoted(printable, s) == 66
  {
    EscapedExactly(printable, s, 1);
  }

  /** The length of a bare header, from its reason. */
  lemma BareLength(printable: char -> bool, h: Header)
    requires IsHexHash(h.packageHash) && IsHexHash(h.graphHash)
    ensures Length(printable, h, HEADER) == (if h.truncated then 317 else 318) + Quoted(printable, h.reason)
  {
    HashLength(printable, h.packageHash);
    HashLength(printable, h.graphHash);
    assert ListLengths(printable, HEADER) == 10;
  }
}
