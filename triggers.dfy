/**
 * The inline trigger table INLINE_TRIGGERS and the lookup the inline
 * tokenizer makes at each position of a line: the groups are tried in the
 * table's order, and a group fires when the text at the position, cut to
 * the length of the group's first token, is one of the group's tokens.
 */
module Triggers {
  import opened Wrappers

  /** The "type" of an inline node: the root "inline" and the seven trigger groups. */
  datatype Kind = Plain | Bold | Underline | Italic | Strikethrough | Code | CodeBlock | Secret

  /** The keys of the table, in the order the dictionary yields them. */
  const Order: seq<Kind> := [Bold, Underline, Italic, Strikethrough, Code, CodeBlock, Secret]

  /** The tokens of each group; the root kind has none. */
  function Tokens(k: Kind): (ts: seq<string>)
    ensures k != Plain <==> ts != []
    ensures forall t :: t in ts ==> |t| == |ts[0]| >= 1
  {
    match k
    case Plain => []
    case Bold => ["**"]
    case Underline => ["__"]
    case Italic => ["*", "_"]
    case Strikethrough => ["~~"]
    case Code => ["`"]
    case CodeBlock => ["```"]
    case Secret => ["||"]
  }

  /** Membership of a token in a group, spelled out token by token. */
  predicate InGroup(t: string, k: Kind) {
    match k
    case Plain => false
    case Bold => t == "**"
    case Underline => t == "__"
    case Italic => t == "*" || t == "_"
    case Strikethrough => t == "~~"
    case Code => t == "`"
    case CodeBlock => t == "```"
    case Secret => t == "||"
  }

  lemma InGroupIsMembership(t: string, k: Kind)
    ensures InGroup(t, k) <==> t in Tokens(k)
  {
  }

  /** Position of a group in the table, the root kind coming after all of them. */
  function Rank(k: Kind): (r: nat)
    ensures k != Plain ==> r < |Order| && Order[r] == k
    ensures k == Plain ==> r == |Order|
  {
    match k
    case Bold => 0
    case Underline => 1
    case Italic => 2
    case Strikethrough => 3
    case Code => 4
    case CodeBlock => 5
    case Secret => 6
    case Plain => 7
  }

  /** No token belongs to two groups, so a token names its group. */
  lemma TokensDisjoint(t: string, k1: Kind, k2: Kind)
    requires t in Tokens(k1) && t in Tokens(k2)
    ensures k1 == k2
  {
  }

  /** `line[i:i+n]`, cut short at the end of the line as Python's slicing does. */
  function Slice(line: string, i: nat, n: nat): (s: string)
    requires i <= |line|
    ensures |s| <= n && i + |s| <= |line| && s == line[i..i + |s|]
    ensures |s| == if i + n <= |line| then n else |line| - i
  {
    if i + n <= |line| then line[i..i + n] else line[i..]
  }

  /** The test of pymdcord/main.py:58 for group `k` at position `i`: the text there,
      cut to the length of the group's tokens, when it is one of them. */
  function Triggered(line: string, i: nat, k: Kind): (r: Option<string>)
    requires i <= |line|
    ensures r.Some? ==> k != Plain && r.value in Tokens(k) && i + |r.value| <= |line| && line[i..i + |r.value|] == r.value
  {
    if k != Plain && Slice(line, i, |Tokens(k)[0]|) in Tokens(k) then Some(Slice(line, i, |Tokens(k)[0]|)) else None
  }

  /** Whether group `k` fires at position `i`. */
  predicate Fires(line: string, i: nat, k: Kind)
    requires i <= |line|
  {
    Triggered(line, i, k).Some?
  }

  /** The first group of the table, from index `j` on, that fires at `i`, with the token it saw. */
  function FirstTriggerFrom(line: string, i: nat, j: nat): (r: Option<(Kind, string)>)
    requires i <= |line| && j <= |Order|
    ensures r.Some? ==> j <= Rank(r.value.0) < |Order| && Fires(line, i, r.value.0)
    ensures r.Some? ==> Triggered(line, i, r.value.0) == Some(r.value.1)
    decreases |Order| - j
  {
    if j == |Order| then None
    else
      var k := Order[j];
      assert Rank(k) == j;
      match Triggered(line, i, k)
      case Some(t) => Some((k, t))
      case None => FirstTriggerFrom(line, i, j + 1)
  }

  /** Wherever the inline code-block token stands, the code token stands too. */
  lemma CodeBlockShadowed(line: string, i: nat)
    requires i <= |line|
    ensures Fires(line, i, CodeBlock) ==> Fires(line, i, Code)
  {
    if Fires(line, i, CodeBlock) {
      var s3 := Slice(line, i, 3);
      assert s3 == "```";
      assert line[i] == s3[0];
      assert Slice(line, i, 1) == [line[i]];
    }
  }

  /** What the loop over the table finds at position `i`: the first group that
      fires there, and the token it saw, which stands at `i` in the line.
      Since every position where "```" stands also holds "`", and the code
      group comes first, the inline code-block group never fires. */
  function FirstTrigger(line: string, i: nat): (r: Option<(Kind, string)>)
    requires i <= |line|
    ensures r.Some? ==> r.value.0 != Plain && r.value.0 != CodeBlock && Fires(line, i, r.value.0)
    ensures r.Some? ==> r.value.1 in Tokens(r.value.0)
    ensures r.Some? ==> i + |r.value.1| <= |line| && line[i..i + |r.value.1|] == r.value.1
  {
    CodeBlockShadowed(line, i);
    FirstTriggerFromIsFirst(line, i, 0);
    FirstTriggerFrom(line, i, 0)
  }

  /** Priority: no group ahead of the one found fires, and when none is found, no group fires at all. */
  lemma FirstTriggerIsFirst(line: string, i: nat)
    requires i <= |line|
    ensures FirstTrigger(line, i).Some? ==> forall k :: Rank(k) < Rank(FirstTrigger(line, i).value.0) ==> !Fires(line, i, k)
    ensures FirstTrigger(line, i).None? ==> forall k :: !Fires(line, i, k)
  {
    FirstTriggerFromIsFirst(line, i, 0);
    assert FirstTrigger(line, i) == FirstTriggerFrom(line, i, 0);
  }

  lemma {:induction false} FirstTriggerFromIsFirst(line: string, i: nat, j: nat)
    requires i <= |line| && j <= |Order|
    ensures var r := FirstTriggerFrom(line, i, j);
      forall k :: j <= Rank(k) < (if r.Some? then Rank(r.value.0) else |Order|) ==> !Fires(line, i, k)
    decreases |Order| - j
  {
    if j < |Order| {
      FirstTriggerFromIsFirst(line, i, j + 1);
      assert Rank(Order[j]) == j;
    }
  }

  /** The same lookup read off the table by hand, one character comparison at
      a time: a reference definition the tokenizer's scan is stated with. */
  function TokenAt(line: string, i: nat): (r: Option<(Kind, string)>)
    requires i <= |line|
    ensures r.Some? ==> r.value.0 != Plain && r.value.0 != CodeBlock && InGroup(r.value.1, r.value.0)
    ensures r.Some? ==> 1 <= |r.value.1| && i + |r.value.1| <= |line|
  {
    if i == |line| then None
    else
      var two := i + 1 < |line|;
      var c := line[i];
      if two && c == '*' && line[i + 1] == '*' then Some((Bold, "**"))
      else if two && c == '_' && line[i + 1] == '_' then Some((Underline, "__"))
      else if c == '*' then Some((Italic, "*"))
      else if c == '_' then Some((Italic, "_"))
      else if two && c == '~' && line[i + 1] == '~' then Some((Strikethrough, "~~"))
      else if c == '`' then Some((Code, "`"))
      else if two && c == '|' && line[i + 1] == '|' then Some((Secret, "||"))
      else None
  }

  /** The token the table names stands in the line at that position. */
  lemma TokenAtStands(line: string, i: nat)
    requires i <= |line| && TokenAt(line, i).Some?
    ensures line[i..i + |TokenAt(line, i).value.1|] == TokenAt(line, i).value.1
  {
    var t := TokenAt(line, i).value.1;
    if |t| == 2 {
      assert line[i..i + 2] == [line[i], line[i + 1]];
    } else {
      assert line[i..i + 1] == [line[i]];
    }
  }

  /** The hand-read table agrees with the lookup over INLINE_TRIGGERS everywhere. */
  lemma TokenAtAgrees(line: string, i: nat)
    requires i <= |line|
    ensures TokenAt(line, i) == FirstTrigger(line, i)
  {
    TriggeredPair(line, i, Bold, '*', '*');
    TriggeredPair(line, i, Underline, '_', '_');
    assert Order[1] == Underline && Order[0] == Bold;
    AgreesFromItalic(line, i);
    AgreesFromCode(line, i);
  }

  /** The table from the italic group on. */
  lemma AgreesFromItalic(line: string, i: nat)
    requires i <= |line|
    ensures FirstTriggerFrom(line, i, 2) ==
      if i < |line| && line[i] == '*' then Some((Italic, "*"))
      else if i < |line| && line[i] == '_' then Some((Italic, "_"))
      else if i + 1 < |line| && line[i] == '~' && line[i + 1] == '~' then Some((Strikethrough, "~~"))
      else FirstTriggerFrom(line, i, 4)
  {
    TriggeredSingle(line, i, Italic);
    TriggeredPair(line, i, Strikethrough, '~', '~');
    assert Order[3] == Strikethrough && Order[2] == Italic;
  }

  /** The table from the code group on. */
  lemma AgreesFromCode(line: string, i: nat)
    requires i <= |line|
    ensures FirstTriggerFrom(line, i, 4) ==
      if i < |line| && line[i] == '`' then Some((Code, "`"))
      else if i + 1 < |line| && line[i] == '|' && line[i + 1] == '|' then Some((Secret, "||"))
      else None
  {
    TriggeredSingle(line, i, Code);
    TriggeredPair(line, i, Secret, '|', '|');
    CodeBlockShadowed(line, i);
    assert FirstTriggerFrom(line, i, 7) == None;
    assert Order[6] == Secret && Order[5] == CodeBlock && Order[4] == Code;
  }

  /** A group with one two-character token fires exactly where both characters stand. */
  lemma TriggeredPair(line: string, i: nat, k: Kind, a: char, b: char)
    requires i <= |line| && Tokens(k) == [[a, b]]
    ensures Triggered(line, i, k) == if i + 1 < |line| && line[i] == a && line[i + 1] == b then Some([a, b]) else None
  {
    var s := Slice(line, i, 2);
    if i + 1 < |line| {
      assert s == [line[i], line[i + 1]];
    } else {
      assert |s| < 2;
    }
  }

  /** A group of one-character tokens fires where one of them stands. */
  lemma TriggeredSingle(line: string, i: nat, k: Kind)
    requires i <= |line| && (k == Italic || k == Code)
    ensures Triggered(line, i, k) == if i < |line| && [line[i]] in Tokens(k) then Some([line[i]]) else None
  {
    var s := Slice(line, i, 1);
    if i < |line| {
      assert s == [line[i]];
    } else {
      assert s == [];
    }
  }

  /** The loop over INLINE_TRIGGERS at one position (pymdcord/main.py:57-61): it finds
      the group the hand-read table names, which is the first that fires. */
  method MatchTrigger(line: string, ind: nat) returns (fired: Option<(Kind, string)>)
    requires ind <= |line|
    ensures fired == TokenAt(line, ind)
  {
    TokenAtAgrees(line, ind);
    var j := 0;
    while j < |Order|
      invariant 0 <= j <= |Order|
      invariant FirstTriggerFrom(line, ind, j) == FirstTrigger(line, ind)
    {
      var triggerType := Order[j];
      var triggered := Triggered(line, ind, triggerType);
      if triggered.Some? {
        return Some((triggerType, triggered.value));
      }
      j := j + 1;
    }
    return None;
  }

}
