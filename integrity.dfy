/** The IntegrityCheck library: a message builder that substitutes or
    concatenates its arguments, and the guard checks that use it to
    report a failure. */
module Integrity {

  // ---------------------------------------------------------------------
  // Arguments
  // ---------------------------------------------------------------------

  /** One non-null element of a `params object[]` argument list. */
  datatype Arg =
    | Str(s: string)       // an argument whose runtime type is exactly string
    | Other(text: string)  // any other object, carried as its ToString() text

  /** The argument array as received; a caller may pass a null array. */
  datatype MessageArgs = NullArgs | Args(items: seq<Arg>)

  /** The separator written between concatenated arguments. */
  const Separator: string := ", "

  /** ToString() of an argument; for a string that is the string itself. */
  function Text(a: Arg): string
  {
    match a
    case Str(s) => s
    case Other(t) => t
  }

  /** The text of an argument on the concatenation path: a string is
      wrapped in single quotes, anything else is its ToString() text. */
  function Quoted(a: Arg): (r: string)
    ensures a.Other? ==> r == Text(a)
    ensures a.Str? ==> |r| == |Text(a)| + 2 && r[0] == '\'' && r[|r| - 1] == '\''
    ensures a.Str? ==> r[1..|r| - 1] == Text(a)
  {
    match a
    case Str(s) => "'" + s + "'"
    case Other(t) => t
  }

  // ---------------------------------------------------------------------
  // Ordinal search for the placeholder (String.IndexOf("{}"))
  // ---------------------------------------------------------------------

  /** `s` holds the two characters `{` `}` at index `i`. */
  predicate PlaceholderAt(s: string, i: int)
  {
    0 <= i && i + 1 < |s| && s[i] == '{' && s[i + 1] == '}'
  }

  /** `k` is the index of the leftmost placeholder in `s`. */
  predicate FirstPlaceholder(s: string, k: int)
  {
    PlaceholderAt(s, k) && forall j :: 0 <= j < k ==> !PlaceholderAt(s, j)
  }

  /** `s` contains a placeholder somewhere. */
  predicate HasPlaceholder(s: string)
  {
    exists i :: 0 <= i < |s| && PlaceholderAt(s, i)
  }

  /** The first placeholder in `s` at or after `from`, or -1. */
  function IndexOfPlaceholderFrom(s: string, from: nat): (r: int)
    requires from <= |s|
    ensures r == -1 || (from <= r && PlaceholderAt(s, r))
    ensures r == -1 ==> forall i :: from <= i ==> !PlaceholderAt(s, i)
    ensures r != -1 ==> forall i :: from <= i < r ==> !PlaceholderAt(s, i)
    decreases |s| - from
  {
    if from + 1 >= |s| then -1
    else if s[from] == '{' && s[from + 1] == '}' then from
    else IndexOfPlaceholderFrom(s, from + 1)
  }

  /** Ordinal `s.IndexOf("{}")`: the index of the first placeholder in
      `s`, or -1 when there is none. */
  function IndexOfPlaceholder(s: string): (r: int)
    ensures r == -1 <==> !HasPlaceholder(s)
    ensures r != -1 ==> FirstPlaceholder(s, r)
  {
    IndexOfPlaceholderFrom(s, 0)
  }

  // ---------------------------------------------------------------------
  // The message builder
  // ---------------------------------------------------------------------

  /** One iteration of the builder's loop on accumulator `s`: replace the
      first placeholder by the raw text of `a`, or, when there is none,
      append the quoted text of `a` (after a separator unless `s` is
      empty). */
  function Step(s: string, a: Arg): string
  {
    var braces := IndexOfPlaceholder(s);
    if braces == -1 then
      if s == "" then Quoted(a) else s + Separator + Quoted(a)
    else
      s[..braces] + Text(a) + s[braces + 2..]
  }

  /** The accumulator after processing `args` in order, starting from "". */
  function Accumulate(args: seq<Arg>): string
  {
    if |args| == 0 then ""
    else Step(Accumulate(args[..|args| - 1]), args[|args| - 1])
  }

  /** What getMessage returns: the default message when there are no
      arguments, and otherwise the accumulated text. */
  function Message(defaultMessage: string, args: MessageArgs): string
  {
    if args.NullArgs? || |args.items| == 0 then defaultMessage
    else Accumulate(args.items)
  }

  /** getMessage: builds a message from a default text and the arguments. */
  method GetMessage(defaultMessage: string, args: MessageArgs) returns (s: string)
    ensures args.NullArgs? || |args.items| == 0 ==> s == defaultMessage
    ensures s == Message(defaultMessage, args)
  {
    if args.NullArgs? || |args.items| == 0 {
      return defaultMessage;
    }
    var items := args.items;
    s := "";
    for i := 0 to |items|
      invariant s == Accumulate(items[..i])
    {
      var item := items[i];
      var braces := IndexOfPlaceholder(s);
      if braces == -1 {
        var itemAsString := Quoted(item);
        if |s| == 0 {
          s := s + itemAsString;
        } else {
          s := s + Separator + itemAsString;
        }
      } else {
        s := s[..braces] + Text(item) + s[braces + 2..];
      }
      assert items[..i + 1][..i] == items[..i];
    }
    assert items[..|items|] == items;
  }

  /** deferredStringbuilder: the message builder with an empty default. */
  method DeferredStringBuilder(args: MessageArgs) returns (s: string)
    ensures args.NullArgs? || |args.items| == 0 ==> s == ""
    ensures s == Message("", args)
  {
    s := GetMessage("", args);
  }

  // ---------------------------------------------------------------------
  // Guard checks
  // ---------------------------------------------------------------------

  /** The .NET exception a failing check raises. */
  datatype FailureKind = NullReference | InvalidOperation

  /** The result of a guard: it passes, or it raises `kind` with `message`. */
  datatype Outcome = Passed | Failed(kind: FailureKind, message: string)

  /** A reference that may be null. */
  datatype Nullable<T> = Null | NonNull(value: T)

  /** The initial value of the settable nullPointerDefaultMessage. */
  const DefaultNullPointerMessage: string := "Encountered Null pointer"

  const CheckFailedMessage: string := "Integrity check failed"

  const EmptyStringMessage: string := "Expected non-empty string"

  /** Check: passes when the condition holds. */
  function Check(condition: bool, args: MessageArgs): (r: Outcome)
    ensures r.Passed? <==> condition
    ensures !condition ==> r == Failed(InvalidOperation, Message(CheckFailedMessage, args))
  {
    if !condition then Failed(InvalidOperation, Message(CheckFailedMessage, args))
    else Passed
  }

  /** Fail: always fails. */
  function Fail(args: MessageArgs): (r: Outcome)
    ensures r.Failed? && r.kind == InvalidOperation
    ensures r.message == Message(CheckFailedMessage, args)
  {
    Failed(InvalidOperation, Message(CheckFailedMessage, args))
  }

  /** CheckNotNull: passes when the object is not null; `nullMessage` is
      the current value of nullPointerDefaultMessage. */
  function CheckNotNull<T>(obj: Nullable<T>, nullMessage: string, args: MessageArgs): (r: Outcome)
    ensures r.Passed? <==> obj.NonNull?
    ensures obj.Null? ==> r == Failed(NullReference, Message(nullMessage, args))
  {
    if obj.Null? then Failed(NullReference, Message(nullMessage, args))
    else Passed
  }

  /** CheckStringNotNullOrEmpty: fails on null and on a zero-length
      string; any string of length at least one passes. */
  function CheckStringNotNullOrEmpty(s: Nullable<string>, nullMessage: string, args: MessageArgs): (r: Outcome)
    ensures r.Passed? <==> s.NonNull? && |s.value| >= 1
    ensures s.Null? ==> r == Failed(NullReference, Message(nullMessage, args))
    ensures s.NonNull? && |s.value| == 0 ==> r == Failed(InvalidOperation, Message(EmptyStringMessage, args))
  {
    if s.Null? then Failed(NullReference, Message(nullMessage, args))
    else if |s.value| == 0 then Failed(InvalidOperation, Message(EmptyStringMessage, args))
    else Passed
  }
}
