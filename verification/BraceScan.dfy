/** Where a brace-delimited or brace-less declaration ends. */
module BraceScan {
  import opened Wrappers

  /** Opened minus closed braces. */
  function Depth(s: string): int {
    if s == "" then 0
    else Depth(s[..|s| - 1]) + match s[|s| - 1] case '{' => 1 case '}' => -1 case _ => 0
  }

  predicate Absent(content: string, c: char, start: nat, end: nat) {
    forall k | start <= k < end && k < |content| :: content[k] != c
  }

  predicate FirstAt(content: string, c: char, start: nat, i: nat) {
    start <= i < |content| && content[i] == c && Absent(content, c, start, i)
  }

  /** `content.find(c, start)`: -1 when there is none. */
  method FindFrom(content: string, c: char, start: nat) returns (r: int)
    ensures r == -1 <==> Absent(content, c, start, |content|)
    ensures r != -1 ==> r >= 0 && FirstAt(content, c, start, r)
  {
    var i := start;
    while i < |content|
      invariant start <= i && (i <= |content| || i == start)
      invariant Absent(content, c, start, i)
    {
      if content[i] == c { return i; }
      i := i + 1;
    }
    r := -1;
  }

  /** `i` closes the brace opened at `open`: the text between the two is the shortest that balances. */
  predicate Closes(content: string, open: nat, i: nat) {
    && open <= i < |content| && content[i] == '}' && Depth(content[open..i + 1]) == 0
    && forall k | open < k <= i :: Depth(content[open..k]) != 0
  }

  predicate NeverCloses(content: string, open: nat)
    requires open < |content|
  {
    forall k | open < k <= |content| :: Depth(content[open..k]) != 0
  }

  lemma DepthStep(content: string, open: nat, i: nat)
    requires open <= i < |content|
    ensures Depth(content[open..i + 1])
      == Depth(content[open..i]) + match content[i] case '{' => 1 case '}' => -1 case _ => 0
  {
    assert content[open..i + 1][..i - open] == content[open..i];
  }

  /** `r` follows the brace that closes `open`, or is the end of a text that never closes it. */
  predicate BlockEnd(content: string, open: nat, r: nat)
    requires open < |content|
  {
    (r > 0 && Closes(content, open, r - 1)) || (r == |content| && NeverCloses(content, open))
  }

  predicate DeclarationEnd(content: string, start: nat, bound: nat, r: nat) {
    if Absent(content, '{', start, bound) then StatementEnd(content, start, bound, r)
    else exists open: nat :: open < bound && FirstAt(content, '{', start, open) && BlockEnd(content, open, r)
  }

  /** Position after the brace that closes the first one from `start`, or the end of a brace-less statement. */
  method FindMatchingBrace(content: string, start: nat, limit: Option<nat>) returns (r: nat)
    ensures DeclarationEnd(content, start, Bound(content, limit), r)
  {
    var bound := Bound(content, limit);
    var idx := FindFrom(content, '{', start);
    if idx == -1 || idx >= bound {
      r := FindStatementEnd(content, start, bound);
      return;
    }
    var depth := 0;
    for i := idx to |content|
      invariant depth == Depth(content[idx..i])
      invariant i > idx ==> depth > 0
      invariant forall k | idx < k <= i :: Depth(content[idx..k]) != 0
    {
      DepthStep(content, idx, i);
      if content[i] == '{' {
        depth := depth + 1;
      } else if content[i] == '}' {
        depth := depth - 1;
        if depth == 0 {
          assert Closes(content, idx, i);
          return i + 1;
        }
      }
    }
    r := |content|;
  }

  function Bound(content: string, limit: Option<nat>): nat {
    match limit
    case Some(n) => if n < |content| then n else |content|
    case None => |content|
  }

  lemma SliceAbsent(content: string, start: nat, n: nat)
    requires start <= n <= |content|
    ensures '{' !in content[start..n] <==> Absent(content, '{', start, n)
  {
    var s := content[start..n];
    assert forall i | start <= i < n :: content[i] == s[i - start];
  }

  /** With no brace before the limit a declaration is a statement that ends by the limit, whatever comes after it. */
  lemma LimitIsKept(content: string, start: nat, n: nat, r: nat)
    requires DeclarationEnd(content, start, Bound(content, Some(n)), r)
    requires start <= n <= |content| && '{' !in content[start..n]
    ensures start <= r <= n && StatementEnd(content, start, n, r)
  {
    SliceAbsent(content, start, n);
    StatementStaysInside(content, start, n, r);
  }

  /** A brace before the limit, or any if there is none, makes it a block, which may end behind the limit. */
  lemma BraceBeforeLimit(content: string, start: nat, limit: Option<nat>, open: nat, r: nat)
    requires DeclarationEnd(content, start, Bound(content, limit), r)
    requires start <= open < |content| && content[open] == '{' && '{' !in content[start..open]
    requires limit.None? || open < limit.value
    ensures BlockEnd(content, open, r)
  {
    SliceAbsent(content, start, open);
    var bound := Bound(content, limit);
    assert !Absent(content, '{', start, bound);
    var first: nat :| first < bound && FirstAt(content, '{', start, first) && BlockEnd(content, first, r);
    assert first == open;
  }

  /** The statement ends after its `;`, or at its line break when that comes first, or at the bound. */
  predicate StatementEnd(content: string, start: nat, bound: nat, r: nat) {
    || (r > 0 && r - 1 < bound && FirstAt(content, ';', start, r - 1) && Absent(content, '\n', start, r - 1))
    || (r < bound && FirstAt(content, '\n', start, r) && Absent(content, ';', start, r))
    || (r == bound && Absent(content, ';', start, bound) && Absent(content, '\n', start, bound))
  }

  method FindStatementEnd(content: string, start: nat, bound: nat) returns (r: nat)
    ensures StatementEnd(content, start, bound, r)
  {
    var semi := FindFrom(content, ';', start);
    var newline := FindFrom(content, '\n', start);
    if semi != -1 && semi < bound && (newline == -1 || semi < newline) {
      return semi + 1;
    }
    if newline != -1 && newline < bound {
      return newline;
    }
    r := bound;
  }

  /** Whatever follows the bound, a brace-less declaration never reaches past it. */
  lemma StatementStaysInside(content: string, start: nat, bound: nat, r: nat)
    requires StatementEnd(content, start, bound, r) && start <= bound <= |content|
    ensures start <= r <= bound
  {
  }

  // ---- well-nested code ----

  /** Code with its braces matched by construction. */
  datatype Code = Done | Text(c: char, rest: Code) | Block(inner: Code, rest: Code)

  function Render(code: Code): string {
    match code
    case Done => ""
    case Text(c, rest) => [c] + Render(rest)
    case Block(inner, rest) => "{" + Render(inner) + "}" + Render(rest)
  }

  /** Text between the braces is anything but a brace. */
  predicate Proper(code: Code) {
    match code
    case Done => true
    case Text(c, rest) => c != '{' && c != '}' && Proper(rest)
    case Block(inner, rest) => Proper(inner) && Proper(rest)
  }

  lemma {:induction false} DepthConcat(a: string, b: string)
    ensures Depth(a + b) == Depth(a) + Depth(b)
    decreases |b|
  {
    if b == "" {
      assert a + b == a;
    } else {
      assert (a + b)[..|a + b| - 1] == a + b[..|b| - 1];
      DepthConcat(a, b[..|b| - 1]);
    }
  }

  /** Well-nested code balances, and no beginning of it closes more than it opened. */
  lemma {:induction false} RenderBalances(code: Code)
    requires Proper(code)
    ensures Depth(Render(code)) == 0
    ensures forall k | 0 <= k <= |Render(code)| :: Depth(Render(code)[..k]) >= 0
    decreases code
  {
    match code
    case Done =>
    case Text(c, rest) =>
      RenderBalances(rest);
      Shifted([c], 0, Render(rest));
    case Block(inner, rest) =>
      RenderBalances(inner);
      RenderBalances(rest);
      Enclosed(Render(inner));
      Shifted("{" + Render(inner) + "}", 0, Render(rest));
  }

  /** Putting a balanced beginning before a text shifts no depth. */
  lemma Shifted(a: string, low: int, b: string)
    requires Depth(a) == 0 && low <= 0 && forall k | 0 <= k <= |a| :: Depth(a[..k]) >= low
    requires forall k | 0 <= k <= |b| :: Depth(b[..k]) >= low
    ensures Depth(a + b) == Depth(b) && forall k | 0 <= k <= |a + b| :: Depth((a + b)[..k]) >= low
  {
    DepthConcat(a, b);
    forall k | 0 <= k <= |a + b| ensures Depth((a + b)[..k]) >= low {
      if k <= |a| {
        assert (a + b)[..k] == a[..k];
      } else {
        assert (a + b)[..k] == a + b[..k - |a|];
        DepthConcat(a, b[..k - |a|]);
      }
    }
  }

  /** Inside its braces a balanced text never balances early. */
  lemma Enclosed(inner: string)
    requires Depth(inner) == 0 && forall k | 0 <= k <= |inner| :: Depth(inner[..k]) >= 0
    ensures var block := "{" + inner + "}";
            && Depth(block) == 0
            && (forall k | 0 < k < |block| :: Depth(block[..k]) >= 1)
            && (forall k | 0 <= k <= |block| :: Depth(block[..k]) >= 0)
  {
    var block := "{" + inner + "}";
    assert Depth("{") == 1 by { assert "{"[..0] == ""; }
    forall k | 0 < k < |block| ensures Depth(block[..k]) >= 1 {
      assert block[..k] == "{" + inner[..k - 1];
      DepthConcat("{", inner[..k - 1]);
    }
    assert block[..|block| - 1] == "{" + inner && inner[..|inner|] == inner;
    DepthConcat("{", inner);
    assert block[..|block|] == block && block[..0] == "";
  }

  /** A declaration followed by a well-nested block ends right after that block, whatever comes next. */
  lemma BlockEndIsFound(before: string, inner: Code, after: string, i: nat)
    requires Proper(inner)
    ensures var content := before + Render(Block(inner, Done)) + after;
            Closes(content, |before|, i) <==> i + 1 == |before| + |Render(Block(inner, Done))|
  {
    RenderBalances(inner);
    Enclosed(Render(inner));
    var block := "{" + Render(inner) + "}";
    assert Render(Block(inner, Done)) == block;
    var content := before + block + after;
    var open, last := |before|, |before| + |block| - 1;
    forall k | open < k <= last ensures Depth(content[open..k]) != 0 {
      assert content[open..k] == block[..k - open];
    }
    assert content[open..last + 1] == block;
    assert content[last] == '}';
    assert Closes(content, open, last);
  }

  /**
   The declaration that starts at `start` and opens its well-nested block before the bound ends right
   after the block, whatever comes next.
   */
  lemma DeclarationEndIsExact(before: string, inner: Code, after: string, start: nat, bound: nat, r: nat)
    requires Proper(inner) && start <= |before| < bound && Absent(before, '{', start, |before|)
    requires DeclarationEnd(before + Render(Block(inner, Done)) + after, start, bound, r)
    ensures r == |before| + |Render(Block(inner, Done))|
  {
    var block := Render(Block(inner, Done));
    var content := before + block + after;
    assert content[|before|] == '{';
    assert forall k | start <= k < |before| :: content[k] == before[k];
    assert FirstAt(content, '{', start, |before|);
    BlockEndIsFound(before, inner, after, |before| + |block| - 1);
    assert content[|before|..|before| + |block|] == block;
    if r > 0 {
      BlockEndIsFound(before, inner, after, r - 1);
    }
  }
}
