/**
 * The part of Go's fmt.Sprintf the statement builders use: string
 * arguments substituted for `%s` (the next argument) and for `%[n]s` (the
 * n-th argument, after which `%s` continues with argument n+1). Any other
 * character, `%` included, is copied as it stands.
 */
module Fmt {

  /** The text at the head of f is an explicit argument index verb `%[n]s` with 1 <= n <= 9. */
  predicate IsIndexedVerb(f: string) {
    |f| >= 5 && f[0] == '%' && f[1] == '[' && '1' <= f[2] <= '9' && f[3] == ']' && f[4] == 's'
  }

  /** The argument number of an indexed verb. */
  function VerbIndex(f: string): (n: nat)
    requires IsIndexedVerb(f)
    ensures 1 <= n <= 9
  {
    f[2] as int - '0' as int
  }

  /** fmt.Sprintf(f, args...) with `next` the argument the next `%s` takes. */
  function Sprintf(f: string, args: seq<string>, next: nat): string
    decreases |f|
  {
    if |f| == 0 then ""
    else if |f| >= 2 && f[0] == '%' && f[1] == 's' then
      (if next < |args| then args[next] else "%!s(MISSING)") + Sprintf(f[2..], args, next + 1)
    else if IsIndexedVerb(f) then
      var n := VerbIndex(f);
      (if n <= |args| then args[n - 1] else "%!s(BADINDEX)") + Sprintf(f[5..], args, n)
    else [f[0]] + Sprintf(f[1..], args, next)
  }

  /** Text without `%` is copied unchanged, and the formatting carries on after it. */
  lemma {:induction false} SprintfLiteral(p: string, y: string, args: seq<string>, next: nat)
    requires '%' !in p
    ensures Sprintf(p + y, args, next) == p + Sprintf(y, args, next)
    decreases |p|
  {
    if |p| > 0 {
      assert (p + y)[0] == p[0];
      assert (p + y)[1..] == p[1..] + y;
      SprintfLiteral(p[1..], y, args, next);
      assert p == [p[0]] + p[1..];
    } else {
      assert p + y == y;
    }
  }

  /** Text without `%` formats as itself. */
  lemma SprintfVerbatim(p: string, args: seq<string>, next: nat)
    requires '%' !in p
    ensures Sprintf(p, args, next) == p
  {
    SprintfLiteral(p, "", args, next);
    assert p + "" == p;
  }

  /** `%s` takes the next argument. */
  lemma SprintfNext(y: string, args: seq<string>, next: nat)
    requires next < |args|
    ensures Sprintf("%s" + y, args, next) == args[next] + Sprintf(y, args, next + 1)
  {
    assert ("%s" + y)[2..] == y;
  }

  /** `%[1]s` takes the first argument. */
  lemma SprintfFirst(y: string, args: seq<string>, next: nat)
    requires 1 <= |args|
    ensures Sprintf("%[1]s" + y, args, next) == args[0] + Sprintf(y, args, 1)
  {
    assert IsIndexedVerb("%[1]s" + y) && VerbIndex("%[1]s" + y) == 1;
    assert ("%[1]s" + y)[5..] == y;
  }

  /** `%[2]s` takes the second argument. */
  lemma SprintfSecond(y: string, args: seq<string>, next: nat)
    requires 2 <= |args|
    ensures Sprintf("%[2]s" + y, args, next) == args[1] + Sprintf(y, args, 2)
  {
    assert IsIndexedVerb("%[2]s" + y) && VerbIndex("%[2]s" + y) == 2;
    assert ("%[2]s" + y)[5..] == y;
  }

  /** A format with one `%s` between two pieces of plain text takes its one argument there. */
  lemma SprintfOneArg(prefix: string, suffix: string, arg: string)
    requires '%' !in prefix && '%' !in suffix
    ensures Sprintf(prefix + ("%s" + suffix), [arg], 0) == prefix + (arg + suffix)
  {
    SprintfVerbatim(suffix, [arg], 1);
    SprintfNext(suffix, [arg], 0);
    SprintfLiteral(prefix, "%s" + suffix, [arg], 0);
  }

  /** A format with three `%s` between pieces of plain text takes its three arguments in order. */
  lemma SprintfThreeArgs(p0: string, p1: string, p2: string, p3: string, a0: string, a1: string, a2: string)
    requires '%' !in p0 && '%' !in p1 && '%' !in p2 && '%' !in p3
    ensures Sprintf(p0 + ("%s" + (p1 + ("%s" + (p2 + ("%s" + p3))))), [a0, a1, a2], 0)
      == p0 + (a0 + (p1 + (a1 + (p2 + (a2 + p3)))))
  {
    var args := [a0, a1, a2];
    SprintfVerbatim(p3, args, 3);
    SprintfNext(p3, args, 2);
    SprintfLiteral(p2, "%s" + p3, args, 2);
    SprintfNext(p2 + ("%s" + p3), args, 1);
    SprintfLiteral(p1, "%s" + (p2 + ("%s" + p3)), args, 1);
    SprintfNext(p1 + ("%s" + (p2 + ("%s" + p3))), args, 0);
    SprintfLiteral(p0, "%s" + (p1 + ("%s" + (p2 + ("%s" + p3)))), args, 0);
  }
}
