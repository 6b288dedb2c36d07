# IntegrityCheck in Dafny

This project models the `IntegrityCheck.Integrity` class from `Integrity.cs`: its message builder and the guard checks that use it.

The message builder is `getMessage` and its public wrapper `deferredStringbuilder`. It starts from an empty accumulator and walks the arguments in order. Each argument either:

- fills the first `{}` in the accumulator with the argument's bare text, or
- when there is no `{}`, is appended to the accumulator. A separator `", "` goes first unless the accumulator is empty, and a string argument is wrapped in single quotes when appended.

When the argument array is null or empty, the caller's default message is returned instead.

The guards `Check`, `Fail`, `CheckNotNull` and `CheckStringNotNullOrEmpty` either pass or raise an exception whose message comes from the builder.

The project has three modules:

- `Integrity` (`integrity.dfy`) holds the data model and the operations:
  - the argument datatype;
  - the ordinal placeholder search;
  - `Step`, one iteration of the builder's loop;
  - `Accumulate` and `Message`, the specification of the builder;
  - `GetMessage`, the imperative loop, proved equal to `Message`;
  - `DeferredStringBuilder`;
  - the guards, as functions returning an `Outcome`.
- `MessageProperties` (`message_properties.dfy`) proves what the builder promises:
  - the append and substitution steps;
  - arguments are consumed in order;
  - the role of the default message;
  - plain lists are joined with `", "`;
  - a placeholder brought in by an argument is visible to later arguments;
  - the relation between `Fail` and `Check`.
- `MessageExamples` (`message_examples.dfy`) works out the argument shapes of the builder's documentation comment, first for any texts and then for the documented literals.

## Code versus documentation comment

The model follows the code. The documentation comment of `deferredStringbuilder` (`Integrity.cs:403-409`) says the first argument `"this is {}"` gives `"This is 1"`. But the code's accumulator starts out empty, so the first argument is always appended. A string first argument is therefore always wrapped in quotes.

Four examples differ from the comment:

- `MessageExamples.TemplateFirstIsQuoted` proves `"'this is 1'"`; the comment says `"This is 1"`.
- `MessageExamples.ConcatFirstIsQuoted` proves `"'this is', 1"`; the comment says `"This is, 1"`.
- `MessageExamples.NestedTemplate` proves `"'This is weird 1 2'"`; the comment says `"This is weird 1 2"`.
- `MessageExamples.OverflowTemplate` proves `"'1 2', 3"`; the comment says `"1 2, 3"`.

The comment's capital "T" in the first two is not produced either. The two examples whose first argument is not a string hold as documented: `MessageExamples.ListOfThree` and `MessageExamples.MixedList`.

The default message is never searched for a placeholder. As soon as there is one argument, the default message plays no part (`MessageExamples.DefaultIsNotTemplate`, `MessageProperties.DefaultIgnored`).

## Model

| member | source | states |
|---|---|---|
| Integrity.IndexOfPlaceholderFrom | Integrity.cs:426 | the result is -1 exactly when no `{}` starts at or after `from`; otherwise it is the leftmost such index |
| Integrity.IndexOfPlaceholder | Integrity.cs:426 | `s.IndexOf("{}")`: -1 if and only if `s` has no `{}`; otherwise a `{}` starts at the result and none starts earlier |
| Integrity.Text | Integrity.cs:435 | an argument's `ToString()` text, carried as given; it has no contract of its own and is what `StepSubstitutes` inserts at Integrity.cs:448 |
| Integrity.Quoted | Integrity.cs:429-436 | the text used on the append path: a non-string is its `Text`, a string is its `Text` with one single quote added on each side |
| Integrity.Step | Integrity.cs:425-449 | one loop iteration; it has no contract of its own and is specified by `MessageProperties.StepAppends` (no `{}`) and `MessageProperties.StepSubstitutes` (first `{}` at `k`) |
| Integrity.Accumulate | Integrity.cs:422-450 | the accumulator after the loop over all arguments; it has no contract of its own, and `MessageProperties.InOrder`, `MessageProperties.AccumulateThen` and `MessageProperties.PlainList` state what it computes |
| Integrity.Message | Integrity.cs:415-453 | what `getMessage` returns; it has no contract of its own: `MessageProperties.NoArgsYieldDefault`, `MessageProperties.DefaultIgnored` and `MessageProperties.InOrder` state it, and `Integrity.GetMessage` is proved equal to it |
| Integrity.GetMessage | Integrity.cs:415-453 | a null or empty argument array returns the default; otherwise the loop's result equals the specification `Message`, kept by the invariant that the accumulator is `Accumulate` of the arguments seen so far |
| Integrity.DeferredStringBuilder | Integrity.cs:411-414 | returns "" for no arguments, and otherwise the builder's message with an empty default |
| Integrity.Check | Integrity.cs:18-25 | passes if and only if the condition holds; on failure raises InvalidOperation with the builder's message over default "Integrity check failed" |
| Integrity.Fail | Integrity.cs:32-36 | always raises InvalidOperation with the builder's message over default "Integrity check failed" |
| Integrity.CheckNotNull | Integrity.cs:44-50 | passes if and only if the object is non-null; a null raises NullReference with the builder's message over the current null-pointer default |
| Integrity.CheckStringNotNullOrEmpty | Integrity.cs:62-73 | passes if and only if the string is non-null and has length at least one; null raises NullReference over the null-pointer default; the empty string raises InvalidOperation over "Expected non-empty string" |
| MessageProperties.StepAppends | Integrity.cs:426-445 | without a `{}` the step appends the quoted text: alone if the accumulator is empty, otherwise after `", "`; gives the length; a string ends up wrapped in single quotes |
| MessageProperties.StepSubstitutes | Integrity.cs:446-449 | with the first `{}` at `k`, the step replaces exactly those two characters by the raw argument text; the prefix before `k` and the suffix after `k + 2` are kept; the new length is the old length minus 2 plus the text length |
| MessageProperties.SubstitutedStringUnquoted | Integrity.cs:446-449 | a string argument substituted into `{}` is inserted without quotes |
| MessageProperties.AccumulateThen | Integrity.cs:423-450 | processing `xs` and then `ys` equals processing `ys`, one step at a time, on the accumulator left by `xs` |
| MessageProperties.InOrder | Integrity.cs:422-450 | the builder is the left-to-right fold of the step over the arguments, starting from "" |
| MessageProperties.NoArgsYieldDefault | Integrity.cs:417-420 | a null or empty argument array yields the default message |
| MessageProperties.DefaultIgnored | Integrity.cs:417-422 | with at least one argument the result does not depend on the default message and is the fold from "" |
| MessageProperties.PlainList | Integrity.cs:426-444 | when no argument text is empty or contains `{}`, the result is the quoted texts joined by `", "`, contains no `{}`, and is non-empty for a non-empty list |
| MessageProperties.SubstitutionExposesPlaceholder | Integrity.cs:423-449 | a `{}` inside a substituted text appears in the new accumulator at the matching offset, so the next search stops there or earlier |
| MessageProperties.AppendExposesPlaceholder | Integrity.cs:423-445 | a `{}` inside an appended text appears in the new accumulator, so the next argument substitutes rather than appends |
| MessageProperties.NullChecksReportDefault | Integrity.cs:44-67 | with no arguments and the initial null-pointer default of Integrity.cs:10, a null object or null string fails with NullReference and the message "Encountered Null pointer" |
| MessageProperties.FailIsFailedCheck | Integrity.cs:18-36 | `Fail` behaves as `Check` with a false condition, and a true `Check` passes |
| MessageExamples.AppendStep | Integrity.cs:426-444 | on an accumulator without `{`, the step appends the quoted text, with a separator unless the accumulator is empty |
| MessageExamples.SubstituteStep | Integrity.cs:446-449 | in `p + "{}" + q` with `p` free of `{`, the step yields `p` + argument text + `q` |
| MessageExamples.PlainThree | Integrity.cs:405 | three plain values give `x, y, z`, for non-empty `x` and `x`, `y` without `{` |
| MessageExamples.StringAmongValues | Integrity.cs:407 | a value, a string and a value give `x, 'str', z`, for non-empty `x` and `x`, `str` without `{` |
| MessageExamples.TemplateThenValue | Integrity.cs:403 | a template string `p{}q` then a value give the filled template, wrapped in quotes, for `p` without `{` |
| MessageExamples.StringThenValue | Integrity.cs:404 | a string without `{` then a value give `'str', t` |
| MessageExamples.NestedTemplateShape | Integrity.cs:408 | a template `p{}`, a string `w1{}w2{}` substituted into it, and two values `x`, `y` give `'p w1 x w2 y'` (the fully filled text in quotes), for `p`, `w1`, `w2`, `x` without `{` |
| MessageExamples.OverflowShape | Integrity.cs:409 | a template `p{}m{}q` and three values: the first two fill it and the third is appended after the quoted template, for `p`, `m`, `q` and the first two values without `{` |
| MessageExamples.ListOfThree | Integrity.cs:405 | `deferredStringbuilder(1, 2, 3)` is `"1, 2, 3"` |
| MessageExamples.MixedList | Integrity.cs:407 | `deferredStringbuilder(true, "str", 1.1)` is `"True, 'str', 1.1"` |
| MessageExamples.TemplateFirstIsQuoted | Integrity.cs:403 | `deferredStringbuilder("this is {}", 1)` is `"'this is 1'"`, not the documented `"This is 1"` |
| MessageExamples.ConcatFirstIsQuoted | Integrity.cs:404 | `deferredStringbuilder("this is", 1)` is `"'this is', 1"`, not the documented `"This is, 1"` |
| MessageExamples.NestedTemplate | Integrity.cs:408 | `deferredStringbuilder("This is {}", "weird {} {}", x, y)` is `"'This is weird x y'"` for `x` without `{`, and for 1 and 2 it is not the documented text without quotes |
| MessageExamples.OverflowTemplate | Integrity.cs:409 | `deferredStringbuilder("{} {}", 1, 2, 3)` is `"'1 2', 3"`, not the documented `"1 2, 3"` |
| MessageExamples.DefaultIsNotTemplate | Integrity.cs:417-422 | a default that contains `{}` is not filled: with one argument the result is that argument's text alone |
| MessageExamples.QuotingOnlyOnAppend | Integrity.cs:427-449 | a string is quoted when appended after a non-empty value `x` and bare when substituted into `x{}`, for `x` without `{` |
| MessageExamples.SeparatorOnlyAfterText | Integrity.cs:437-444 | no separator is written while the accumulator is empty, even after an argument with empty text; once it holds a non-empty `w` without `{`, an empty text still gets its separator |

## Left out

- The `CheckIsValidNumber` and `CheckIsValidNumberOrNull` overloads for `float`, `float?`, `double` and `double?` (Integrity.cs:201-366) are not modelled. They test for NaN and infinities, and the model has no floating point.
- The non-nullable integer overloads (Integrity.cs:83, 113, 143, 173) and every integer `CheckIsValidNumberOrNull` overload (Integrity.cs:368-391) have empty bodies and are not modelled.
- The nullable integer `CheckIsValidNumber` overloads (Integrity.cs:97, 128, 157, 187) are not modelled separately. Each does exactly what `Integrity.CheckNotNull` does on a `Nullable<T>`.
- `ToString()` is not modelled. An argument other than a string is carried as its text (`Arg.Other`). That covers fixed renderings such as `True` (the text of `true`) and culture-dependent ones such as `1.1`.
- `item.GetType() == typeof(string)` is modelled by the choice between `Arg.Str` and `Arg.Other`.
- A null element of the argument array is not modelled, because the `Arg` type has no null. The code would raise on it for want of an object to render.
- Exceptions are not modelled as control flow. A guard returns `Outcome.Failed(kind, message)` where the code throws a `NullReferenceException` or `InvalidOperationException`.
- The mutable static `nullPointerDefaultMessage` (Integrity.cs:10) is not modelled as a field. Its current value is the `nullMessage` parameter of the null checks, and its initial value is the constant `DefaultNullPointerMessage`.
- Integrity.IndexOfPlaceholder: models `s.IndexOf("{}")` as an ordinal search for the two characters `{` and `}`, not the culture-sensitive comparison .NET uses for `IndexOf(string)`.
