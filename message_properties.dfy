/** Properties of the message builder and the guard checks. */
module MessageProperties {
  import opened Integrity

  // ---------------------------------------------------------------------
  // One iteration
  // ---------------------------------------------------------------------

  /** Without a placeholder the step appends: the old accumulator is kept
      as a prefix, the argument's quoted text follows, and ", " separates
      them only when the accumulator was non-empty. */
  lemma StepAppends(s: string, a: Arg)
    requires !HasPlaceholder(s)
    ensures s == "" ==> Step(s, a) == Quoted(a)
    ensures s != "" ==> Step(s, a) == s + Separator + Quoted(a)
    ensures |Step(s, a)| == |s| + (if s == "" then 0 else 2) + |Quoted(a)|
    ensures a.Str? ==> Step(s, a)[|Step(s, a)| - |a.s| - 2..] == "'" + a.s + "'"
  {
  }

  /** With a placeholder the step substitutes: only the leftmost `{}` is
      replaced, by the raw (unquoted) text of the argument; what precedes
      and what follows it are unchanged. */
  lemma StepSubstitutes(s: string, a: Arg, k: int)
    requires FirstPlaceholder(s, k)
    ensures Step(s, a) == s[..k] + Text(a) + s[k + 2..]
    ensures |Step(s, a)| == |s| - 2 + |Text(a)|
    ensures Step(s, a)[..k] == s[..k]
    ensures Step(s, a)[k..k + |Text(a)|] == Text(a)
    ensures Step(s, a)[k + |Text(a)|..] == s[k + 2..]
  {
  }

  /** Substituting a string argument inserts it bare, never quoted. */
  lemma SubstitutedStringUnquoted(s: string, x: string, k: int)
    requires FirstPlaceholder(s, k)
    ensures Step(s, Str(x)) == s[..k] + x + s[k + 2..]
  {
    StepSubstitutes(s, Str(x), k);
  }

  // ---------------------------------------------------------------------
  // Order of consumption
  // ---------------------------------------------------------------------

  /** The builder read as a left-to-right loop from accumulator `s`. */
  function StepAll(s: string, args: seq<Arg>): string
    decreases |args|
  {
    if |args| == 0 then s else StepAll(Step(s, args[0]), args[1..])
  }

  /** Processing `xs` and then `ys` is processing `ys` on the accumulator
      left by `xs`. */
  lemma {:induction false} AccumulateThen(xs: seq<Arg>, ys: seq<Arg>)
    ensures Accumulate(xs + ys) == StepAll(Accumulate(xs), ys)
    decreases |ys|
  {
    if |ys| == 0 {
      assert xs + ys == xs;
    } else {
      var xs' := xs + [ys[0]];
      assert xs + ys == xs' + ys[1..];
      assert xs'[..|xs'| - 1] == xs;
      AccumulateThen(xs', ys[1..]);
    }
  }

  /** Arguments are consumed in order, each exactly once, starting from
      the empty accumulator: the result is the left-to-right fold of Step. */
  lemma InOrder(args: seq<Arg>)
    ensures Accumulate(args) == StepAll("", args)
  {
    assert [] + args == args;
    AccumulateThen([], args);
  }

  // ---------------------------------------------------------------------
  // The default message
  // ---------------------------------------------------------------------

  /** No arguments (or a null array): the default message is returned. */
  lemma NoArgsYieldDefault(defaultMessage: string, args: MessageArgs)
    requires args.NullArgs? || args.items == []
    ensures Message(defaultMessage, args) == defaultMessage
  {
  }

  /** With at least one argument the default message is never read: the
      result does not depend on it. */
  lemma DefaultIgnored(d1: string, d2: string, items: seq<Arg>)
    requires items != []
    ensures Message(d1, Args(items)) == Message(d2, Args(items))
    ensures Message(d1, Args(items)) == StepAll("", items)
  {
    InOrder(items);
  }

  // ---------------------------------------------------------------------
  // Plain lists
  // ---------------------------------------------------------------------

  /** The concatenation-path texts of the arguments, in order. */
  function QuotedTexts(args: seq<Arg>): (ts: seq<string>)
    ensures |ts| == |args|
  {
    if |args| == 0 then [] else QuotedTexts(args[..|args| - 1]) + [Quoted(args[|args| - 1])]
  }

  /** `ts` joined with Separator. */
  function Joined(ts: seq<string>): string
  {
    if |ts| == 0 then ""
    else if |ts| == 1 then ts[0]
    else Joined(ts[..|ts| - 1]) + Separator + ts[|ts| - 1]
  }

  lemma JoinKeepsNoPlaceholder(x: string, y: string)
    requires !HasPlaceholder(x) && !HasPlaceholder(y)
    ensures !HasPlaceholder(x + Separator + y)
  {
    var z := x + Separator + y;
    forall i | PlaceholderAt(z, i) ensures false {
      if i + 1 < |x| {
        assert PlaceholderAt(x, i);
      } else if i + 2 >= |x| + 2 + 1 {
        assert z[i] == y[i - |x| - 2] && z[i + 1] == y[i + 1 - |x| - 2];
        assert PlaceholderAt(y, i - |x| - 2);
      }
    }
  }

  /** When no argument supplies a placeholder (and none has empty text),
      the builder never substitutes: the result is the arguments' texts,
      strings quoted, joined by ", ". */
  lemma {:induction false} PlainList(args: seq<Arg>)
    requires forall i :: 0 <= i < |args| ==> Quoted(args[i]) != "" && !HasPlaceholder(Quoted(args[i]))
    ensures Accumulate(args) == Joined(QuotedTexts(args))
    ensures !HasPlaceholder(Accumulate(args))
    ensures args != [] ==> Accumulate(args) != ""
  {
    if |args| == 0 {
      assert !PlaceholderAt("", 0);
    } else {
      var n := |args|;
      var init := args[..n - 1];
      var q := Quoted(args[n - 1]);
      assert QuotedTexts(args) == QuotedTexts(init) + [q];
      PlainList(init);
      StepAppends(Accumulate(init), args[n - 1]);
      if n == 1 {
        assert Accumulate(init) == "";
      } else {
        assert QuotedTexts(args)[..n - 1] == QuotedTexts(init);
        JoinKeepsNoPlaceholder(Accumulate(init), q);
      }
    }
  }

  // ---------------------------------------------------------------------
  // Placeholders exposed by earlier arguments
  // ---------------------------------------------------------------------

  /** A placeholder carried in by a substituted text is seen by the next
      argument: the next search stops at it or earlier. */
  lemma SubstitutionExposesPlaceholder(s: string, a: Arg, k: int, j: int)
    requires FirstPlaceholder(s, k)
    requires PlaceholderAt(Text(a), j)
    ensures PlaceholderAt(Step(s, a), k + j)
    ensures 0 <= IndexOfPlaceholder(Step(s, a)) <= k + j
  {
    StepSubstitutes(s, a, k);
    var r := Step(s, a);
    assert r[k + j] == Text(a)[j] && r[k + j + 1] == Text(a)[j + 1];
    assert PlaceholderAt(r, k + j);
  }

  /** A placeholder carried in by an appended text is seen by the next
      argument too. */
  lemma AppendExposesPlaceholder(s: string, a: Arg, j: int)
    requires !HasPlaceholder(s)
    requires PlaceholderAt(Quoted(a), j)
    ensures PlaceholderAt(Step(s, a), (if s == "" then 0 else |s| + 2) + j)
    ensures IndexOfPlaceholder(Step(s, a)) != -1
  {
    StepAppends(s, a);
    var r := Step(s, a);
    var off := if s == "" then 0 else |s| + 2;
    assert r[off + j] == Quoted(a)[j] && r[off + j + 1] == Quoted(a)[j + 1];
    assert PlaceholderAt(r, off + j);
  }

  // ---------------------------------------------------------------------
  // Guards
  // ---------------------------------------------------------------------

  /** With no arguments, the null checks report the initial value of
      nullPointerDefaultMessage. */
  lemma NullChecksReportDefault<T>(args: MessageArgs)
    requires args.NullArgs? || args.items == []
    ensures CheckNotNull<T>(Null, DefaultNullPointerMessage, args) == Failed(NullReference, "Encountered Null pointer")
    ensures CheckStringNotNullOrEmpty(Null, DefaultNullPointerMessage, args) == Failed(NullReference, "Encountered Null pointer")
  {
  }

  /** Fail is a Check whose condition is false; a true Check passes. */
  lemma FailIsFailedCheck(args: MessageArgs)
    ensures Fail(args) == Check(false, args)
    ensures Check(true, args) == Passed
  {
  }
}
