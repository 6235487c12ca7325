/**
 The source-code tokenizer: a state machine that looks at one character at a time and remembers the
 one before.  Its tokens are the runs between boundaries of a declarative rule.
 */
module CodeTokenizer {
  import opened Wrappers

  /** A character, with the answers the Unicode tables give about it. */
  datatype Char = Char(code: nat, isAlphabetic: bool, isUppercase: bool, isNumeric: bool) {
    function LenUtf8(): nat {
      if code < 0x80 then 1 else if code < 0x800 then 2 else if code < 0x1_0000 then 3 else 4
    }

    function CharType(): CharType {
      if isAlphabetic then (if isUppercase then UpperCase else LowerCase)
      else if isNumeric then Numeric
      else Delimiter
    }
  }

  datatype CharType = UpperCase | LowerCase | Numeric | Delimiter

  /** The number of bytes is the least that has room for the code. */
  lemma LenUtf8IsLeast(c: Char)
    requires c.code < 0x11_0000
    ensures c.code < Room(c.LenUtf8()) && (c.LenUtf8() > 1 ==> Room(c.LenUtf8() - 1) <= c.code)
  {}

  /** How many codes there are with that many bytes or less, by RFC 3629, section 3. */
  function Room(bytes: nat): nat
    requires 1 <= bytes <= 4
  {
    if bytes == 1 then 128 else if bytes == 2 then 32 * 64 else if bytes == 3 then 16 * 64 * 64 else 8 * 64 * 64 * 64
  }

  type Text = seq<Char>

  /** The byte offset of the character at `i`. */
  function Offset(text: Text, i: nat): nat
    requires i <= |text|
  {
    if i == 0 then 0 else Offset(text, i - 1) + text[i - 1].LenUtf8()
  }

  lemma OffsetNext(text: Text, i: nat)
    requires i < |text|
    ensures Offset(text, i + 1) == Offset(text, i) + text[i].LenUtf8()
  {}

  lemma {:induction false} OffsetIncreases(text: Text, i: nat, j: nat)
    requires i < j <= |text|
    ensures Offset(text, i) < Offset(text, j)
  {
    if i + 1 < j {
      OffsetIncreases(text, i, j - 1);
    }
  }

  // ---------------------------------------------------------------------------------------------
  // The rule
  // ---------------------------------------------------------------------------------------------

  predicate Delim(text: Text, i: nat)
    requires i < |text|
  {
    !text[i].isAlphabetic && !text[i].isNumeric
  }

  predicate Upper(c: Char) { c.isAlphabetic && c.isUppercase }
  predicate Lower(c: Char) { c.isAlphabetic && !c.isUppercase }

  /** Between two characters that are no delimiters: one is a letter and the other is not, or the first is not
      uppercase and the second is, or both are uppercase letters and a letter that is not follows. */
  predicate Cut(text: Text, k: nat)
    requires 0 < k < |text|
  {
    || text[k - 1].isAlphabetic != text[k].isAlphabetic
    || (Lower(text[k - 1]) && Upper(text[k]))
    || (Upper(text[k - 1]) && Upper(text[k]) && k + 1 < |text| && Lower(text[k + 1]))
  }

  /** The state machine's class for what is in no token. */
  lemma TypeAt(text: Text, i: nat)
    requires i < |text|
    ensures text[i].CharType() == Delimiter <==> Delim(text, i)
  {}

  predicate Boundary(text: Text, k: nat)
    requires k <= |text|
  {
    k == 0 || k == |text| || Delim(text, k - 1) || Delim(text, k) || Cut(text, k)
  }

  datatype Span = Span(from: nat, to: nat)

  /** A run of characters that are no delimiters, from one boundary to the next. */
  ghost predicate IsToken(text: Text, t: Span) {
    && t.from < t.to <= |text|
    && (forall i :: t.from <= i < t.to ==> !Delim(text, i))
    && Boundary(text, t.from) && Boundary(text, t.to)
    && (forall k :: t.from < k < t.to ==> !Boundary(text, k))
  }

  ghost predicate Ordered(tokens: seq<Span>) {
    forall a, b :: 0 <= a < b < |tokens| ==> tokens[a].to <= tokens[b].from
  }

  ghost predicate Covered(tokens: seq<Span>, i: nat) {
    exists a :: 0 <= a < |tokens| && tokens[a].from <= i < tokens[a].to
  }

  /** Tokens in order, covering every character before `end` that is no delimiter. */
  ghost predicate SplitUpTo(text: Text, tokens: seq<Span>, end: nat)
    requires end <= |text|
  {
    && (forall a :: 0 <= a < |tokens| ==> IsToken(text, tokens[a]) && tokens[a].to <= end)
    && Ordered(tokens)
    && (forall i :: 0 <= i < end && !Delim(text, i) ==> Covered(tokens, i))
  }

  ghost predicate IsSplit(text: Text, tokens: seq<Span>) {
    SplitUpTo(text, tokens, |text|)
  }

  /** The rule leaves no choice: a text has one split. */
  lemma {:induction false} SplitIsUnique(text: Text, a: seq<Span>, b: seq<Span>)
    requires IsSplit(text, a) && IsSplit(text, b)
    ensures a == b
  {
    forall i | 0 <= i < |a| && i < |b| ensures a[i] == b[i] {
      SameToken(text, a, b, i);
    }
    NotLonger(text, a, b);
    NotLonger(text, b, a);
  }

  /** What is in the tokens of a split: exactly the letters and digits. */
  lemma TokenCharacters(text: Text, split: seq<Span>, i: nat)
    requires IsSplit(text, split) && i < |text|
    ensures Covered(split, i) <==> text[i].isAlphabetic || text[i].isNumeric
  {
    if a :| 0 <= a < |split| && split[a].from <= i < split[a].to {
      NoDelimIn(text, split[a], i);
    }
  }

  lemma NoDelimIn(text: Text, t: Span, i: nat)
    requires IsToken(text, t) && t.from <= i < t.to
    ensures i < |text| && !Delim(text, i)
  {}

  lemma OnlyEndsAreBoundaries(text: Text, t: Span, k: nat)
    requires IsToken(text, t) && t.from < k <= t.to
    ensures k <= |text| && (Boundary(text, k) <==> k == t.to)
  {}

  ghost predicate Together(split: seq<Span>, k: nat) {
    exists a :: 0 <= a < |split| && split[a].from < k < split[a].to
  }

  /** And where two of them that are next to each other are in two tokens: between a letter and a digit always,
      between digits never, and between letters as their case says. */
  lemma CutsOfSplit(text: Text, split: seq<Span>, k: nat)
    requires IsSplit(text, split) && 0 < k < |text|
    requires Covered(split, k - 1) && Covered(split, k)
    ensures var a, b := text[k - 1], text[k];
            !Together(split, k) <==>
              if a.isAlphabetic && b.isAlphabetic then
                || (!a.isUppercase && b.isUppercase)
                || (a.isUppercase && b.isUppercase
                    && k + 1 < |text| && text[k + 1].isAlphabetic && !text[k + 1].isUppercase)
              else a.isAlphabetic || b.isAlphabetic
  {
    hide SplitUpTo, IsToken, Covered, Together;
    TogetherIff(text, split, k);
    TokenCharacters(text, split, k - 1);
    TokenCharacters(text, split, k);
  }

  lemma TogetherIff(text: Text, split: seq<Span>, k: nat)
    requires IsSplit(text, split) && 0 < k < |text| && Covered(split, k - 1)
    ensures Together(split, k) <==> !Boundary(text, k)
  {
    hide Boundary, IsToken;
    var i: nat :| i < |split| && split[i].from <= k - 1 < split[i].to;
    OnlyEndsAreBoundaries(text, split[i], k);
    if Together(split, k) {
      var a: nat :| a < |split| && split[a].from < k < split[a].to;
      OnlyEndsAreBoundaries(text, split[a], k);
    } else {
      assert !(split[i].from < k < split[i].to);
    }
  }

  lemma NotLonger(text: Text, a: seq<Span>, b: seq<Span>)
    requires IsSplit(text, a) && IsSplit(text, b)
    requires forall i :: 0 <= i < |a| && i < |b| ==> a[i] == b[i]
    ensures |b| <= |a|
  {
    if b != [] {
      var j := |b| - 1;
      assert Covered(a, b[j].from);
      var k :| 0 <= k < |a| && a[k].from <= b[j].from < a[k].to;
      TokensAgree(text, a[k], b[j], b[j].from);
    }
  }

  /** Two tokens that share a character are the same. */
  lemma TokensAgree(text: Text, s: Span, t: Span, i: nat)
    requires IsToken(text, s) && IsToken(text, t)
    requires s.from <= i < s.to && t.from <= i < t.to
    ensures s == t
  {}

  lemma {:induction false} SameToken(text: Text, a: seq<Span>, b: seq<Span>, i: nat)
    requires IsSplit(text, a) && IsSplit(text, b) && i < |a| && i < |b|
    ensures a[i] == b[i]
  {
    assert Covered(b, a[i].from) && Covered(a, b[i].from);
    var j :| 0 <= j < |b| && b[j].from <= a[i].from < b[j].to;
    var k :| 0 <= k < |a| && a[k].from <= b[i].from < a[k].to;
    TokensAgree(text, a[i], b[j], a[i].from);
    TokensAgree(text, b[i], a[k], b[i].from);
    if j < i {
      SameToken(text, a, b, j);
    } else if k < i {
      SameToken(text, a, b, k);
    }
  }

  // ---------------------------------------------------------------------------------------------
  // The stream
  // ---------------------------------------------------------------------------------------------

  datatype State =
    | Empty
    | ProcessingChars(isFirstChar: bool, startOffset: nat, currentChar: Char,
                      currentCharOffset: nat, currentCharType: CharType)

  datatype Token = Token(offsetFrom: nat, offsetTo: nat, text: Text, position: nat)

  const USIZE_RANGE: nat := 0x1_0000_0000_0000_0000

  class CodeTokenStream {
    const text: Text
    var next: nat          // what is left of the character iterator starts here
    var state: State
    var token: Token

    ghost var tokens: seq<Span>   // the tokens so far
    ghost var start: nat          // where the token being read starts

    ghost predicate Valid()
      reads this
    {
      && next <= |text|
      && match state
         case Empty =>
           SplitUpTo(text, tokens, next) && (next == 0 || next == |text| || Delim(text, next - 1))
         case ProcessingChars(first, startOffset, current, currentOffset, currentType) =>
           && start < next && SplitUpTo(text, tokens, start)
           && current == text[next - 1] && currentType == current.CharType()
           && startOffset == Offset(text, start) && currentOffset == Offset(text, next - 1)
           && first == (start == next - 1)
           && Reading(text, start, next)
    }

    constructor (text: Text)
      ensures Valid() && this.text == text && tokens == [] && token.position == USIZE_RANGE - 1
    {
      this.text := text;
      next, state, tokens, start := 0, Empty, [], 0;
      token := Token(0, 0, [], USIZE_RANGE - 1);
    }

    /** One step of the state machine; a result is the byte range of a finished token. */
    method AdvanceState(nextChar: Char) returns (r: Option<(nat, nat)>, ghost t: Span)
      requires Valid() && next < |text| && nextChar == text[next]
      modifies this`next, this`state, this`tokens, this`start
      ensures Valid() && next == old(next) + 1
      ensures r.None? ==> tokens == old(tokens)
      ensures r.Some? ==>
        && tokens == old(tokens) + [t] && IsToken(text, t)
        && r.value == (Offset(text, t.from), Offset(text, t.to))
    {
      hide Reading, SplitUpTo, IsToken, Boundary, Char.CharType, Char.LenUtf8, Delim, Upper, Lower, Offset, Cut;
      r, t := None, Span(0, 0);
      TypeAt(text, next);
      var nextOffset := Offset(text, next);
      var nextType := nextChar.CharType();
      next := next + 1;
      match state {
        case Empty =>
          if nextType != Delimiter {
            ReadingStarts(text, next - 1);
            state := ProcessingChars(true, nextOffset, nextChar, nextOffset, nextType);
            start := next - 1;
          } else {
            SplitSkips(text, tokens, next - 1);
          }
        case ProcessingChars(first, startOffset, current, currentOffset, currentType) =>
          OffsetNext(text, next - 2);
          if nextType == Delimiter {
            r := Some((startOffset, currentOffset + current.LenUtf8()));
            ReadingEnds(text, start, next - 1);
            t := Span(start, next - 1);
            SplitGrows(text, tokens, t);
            SplitSkips(text, tokens + [t], next - 1);
            state := Empty;
            tokens := tokens + [t];
          } else if currentType == UpperCase && nextType == LowerCase {
            if first {
              ReadingContinues(text, start, next - 1);
              state := ProcessingChars(false, startOffset, nextChar, nextOffset, nextType);
            } else {
              r := Some((startOffset, currentOffset));
              ReadingSplits(text, start, next - 1);
              t := Span(start, next - 2);
              SplitGrows(text, tokens, t);
              state := ProcessingChars(false, currentOffset, nextChar, nextOffset, nextType);
              tokens := tokens + [t];
              start := next - 2;
            }
          } else if currentType == nextType {
            ReadingContinues(text, start, next - 1);
            state := ProcessingChars(false, startOffset, nextChar, nextOffset, currentType);
          } else {
            r := Some((startOffset, currentOffset + current.LenUtf8()));
            ReadingEnds(text, start, next - 1);
            ReadingStarts(text, next - 1);
            t := Span(start, next - 1);
            SplitGrows(text, tokens, t);
            state := ProcessingChars(true, nextOffset, nextChar, nextOffset, nextType);
            tokens := tokens + [t];
            start := next - 1;
          }
      }
    }

    /** At the end of the text, whatever is being read is a token. */
    method Finalize() returns (r: Option<(nat, nat)>, ghost t: Span)
      requires Valid() && next == |text|
      modifies this`state, this`tokens
      ensures Valid() && state.Empty? && IsSplit(text, tokens)
      ensures r.None? ==> tokens == old(tokens)
      ensures r.None? <==> old(state).Empty?
      ensures r.Some? ==>
        && tokens == old(tokens) + [t] && IsToken(text, t)
        && r.value == (Offset(text, t.from), Offset(text, t.to))
    {
      hide Reading, SplitUpTo, IsToken;
      match state {
        case Empty => r, t := None, Span(0, 0);
        case ProcessingChars(_, startOffset, current, currentOffset, _) =>
          r := Some((startOffset, currentOffset + current.LenUtf8()));
          ReadingEnds(text, start, next);
          t := Span(start, next);
          SplitGrows(text, tokens, t);
          tokens := tokens + [t];
          state := Empty;
      }
    }

    /**
     The next token, or `false` once there is none, and then the tokens are the split of the text.
     The n-th token, counted from 0, has position n.
     */
    method Advance() returns (more: bool, ghost t: Span)
      requires Valid() && token.position == (|tokens| + USIZE_RANGE - 1) % USIZE_RANGE
      modifies this
      ensures Valid()
      ensures next >= old(next)
      ensures !more ==> tokens == old(tokens) && IsSplit(text, tokens)
      ensures more ==>
        && tokens == old(tokens) + [t] && IsToken(text, t) && t.from < t.to <= |text|
        && (next > old(next) || (state.Empty? && !old(state).Empty?))
        && token == Token(Offset(text, t.from), Offset(text, t.to), text[t.from..t.to],
                          (|tokens| - 1) % USIZE_RANGE)
    {
      hide IsToken, SplitUpTo, Reading;
      t := Span(0, 0);
      token := token.(text := [], position := (token.position + 1) % USIZE_RANGE);
      while next < |text|
        invariant Valid() && tokens == old(tokens) && token.position == |tokens| % USIZE_RANGE
        invariant next >= old(next) && (next == old(next) ==> state == old(state))
        decreases |text| - next
      {
        var offsets;
        offsets, t := AdvanceState(text[next]);
        if offsets.Some? {
          UpdateToken(offsets.value.0, offsets.value.1, t);
          return true, t;
        }
      }
      var offsets;
      offsets, t := Finalize();
      if offsets.Some? {
        UpdateToken(offsets.value.0, offsets.value.1, t);
        return true, t;
      }
      return false, t;
    }

    method UpdateToken(from: nat, to: nat, ghost t: Span)
      requires IsToken(text, t) && from == Offset(text, t.from) && to == Offset(text, t.to)
      modifies this`token
      ensures t.from < t.to <= |text|
      ensures token == Token(from, to, text[t.from..t.to], old(token).position)
    {
      var slice := SliceBytes(text, from, to, t);
      token := Token(from, to, slice, token.position);
    }
  }

  /** `text[from..to]` by byte offsets: from the character at `from` to the one at `to`. */
  method SliceBytes(text: Text, from: nat, to: nat, ghost t: Span) returns (slice: Text)
    requires t.from <= t.to <= |text| && from == Offset(text, t.from) && to == Offset(text, t.to)
    ensures slice == text[t.from..t.to]
  {
    var i, offset := 0, 0;
    while offset < from
      invariant i <= t.from && offset == Offset(text, i)
      decreases t.from - i
    {
      offset, i := offset + text[i].LenUtf8(), i + 1;
    }
    if i < t.from {
      OffsetIncreases(text, i, t.from);
      assert false;
    }
    slice := [];
    while offset < to
      invariant t.from <= i <= t.to && offset == Offset(text, i) && slice == text[t.from..i]
      decreases t.to - i
    {
      slice := slice + [text[i]];
      offset, i := offset + text[i].LenUtf8(), i + 1;
    }
    if i < t.to {
      OffsetIncreases(text, i, t.to);
      assert false;
    }
  }

  /** The tokens of a split, with their byte offsets, their characters and their positions. */
  ghost function TokensOf(text: Text, split: seq<Span>): (tokens: seq<Token>)
    requires forall i :: 0 <= i < |split| ==> split[i].from <= split[i].to <= |text|
    ensures |tokens| == |split|
  {
    seq(|split|, i requires 0 <= i < |split| =>
      Token(Offset(text, split[i].from), Offset(text, split[i].to), text[split[i].from..split[i].to],
            i % USIZE_RANGE))
  }

  /** All the tokens of a text: the split the rule gives, with nothing more and nothing less. */
  method Tokenize(text: Text) returns (r: seq<Token>)
    ensures exists split :: IsSplit(text, split) && r == TokensOf(text, split)
  {
    hide IsToken, SplitUpTo, Reading;
    var stream := new CodeTokenStream(text);
    r := [];
    while true
      invariant fresh(stream) && stream.Valid() && stream.text == text && |r| == |stream.tokens|
      invariant stream.token.position == (|r| + USIZE_RANGE - 1) % USIZE_RANGE
      invariant forall i :: 0 <= i < |r| ==> stream.tokens[i].from <= stream.tokens[i].to <= |text|
      invariant r == TokensOf(text, stream.tokens)
      decreases |text| - stream.next, if stream.state.Empty? then 0 else 1
    {
      var more, t := stream.Advance();
      if !more {
        break;
      }
      r := r + [stream.token];
    }
    SplitIsBounded(text, stream.tokens);
  }

  lemma SplitIsBounded(text: Text, split: seq<Span>)
    requires IsSplit(text, split)
    ensures forall i :: 0 <= i < |split| ==> split[i].from <= split[i].to <= |text|
  {}

  /** Everything from `start` up to the last character read is one token so far; only whether there
      is a cut before that last character is still open. */
  ghost predicate Reading(text: Text, start: nat, next: nat)
    requires start < next <= |text|
  {
    && Boundary(text, start)
    && (forall i :: start <= i < next ==> !Delim(text, i))
    && (forall k :: start < k < next - 1 ==> !Boundary(text, k))
    && (start < next - 1 && Boundary(text, next - 1) ==>
          next < |text| && Upper(text[next - 2]) && Upper(text[next - 1]) && Lower(text[next]))
  }

  lemma ReadingStarts(text: Text, start: nat)
    requires start < |text| && !Delim(text, start)
    requires Boundary(text, start)
    ensures Reading(text, start, start + 1)
  {}

  lemma ReadingContinues(text: Text, start: nat, next: nat)
    requires start < next < |text| && Reading(text, start, next) && !Delim(text, next)
    requires var before, after := text[next - 1].CharType(), text[next].CharType();
             before == after || (before == UpperCase && after == LowerCase && start == next - 1)
    ensures Reading(text, start, next + 1)
  {}

  lemma ReadingEnds(text: Text, start: nat, next: nat)
    requires start < next <= |text| && Reading(text, start, next)
    requires next < |text| ==>
      var before, after := text[next - 1].CharType(), text[next].CharType();
      after == Delimiter || (before != after && !(before == UpperCase && after == LowerCase))
    ensures IsToken(text, Span(start, next)) && Boundary(text, next)
  {}

  lemma ReadingSplits(text: Text, start: nat, next: nat)
    requires start < next - 1 && next < |text| && Reading(text, start, next)
    requires text[next - 1].CharType() == UpperCase && text[next].CharType() == LowerCase
    ensures IsToken(text, Span(start, next - 1))
    ensures Reading(text, next - 1, next + 1)
  {
    assert Cut(text, next - 1);
  }

  lemma SplitGrows(text: Text, tokens: seq<Span>, t: Span)
    requires IsToken(text, t) && SplitUpTo(text, tokens, t.from)
    ensures SplitUpTo(text, tokens + [t], t.to)
  {
    var after := tokens + [t];
    forall i | 0 <= i < t.to && !Delim(text, i) ensures Covered(after, i) {
      if i < t.from {
        assert Covered(tokens, i);
        var a :| 0 <= a < |tokens| && tokens[a].from <= i < tokens[a].to;
        assert after[a] == tokens[a];
      } else {
        assert after[|tokens|] == t;
      }
    }
  }

  lemma SplitSkips(text: Text, tokens: seq<Span>, end: nat)
    requires end < |text| && Delim(text, end) && SplitUpTo(text, tokens, end)
    ensures SplitUpTo(text, tokens, end + 1)
  {}
}
