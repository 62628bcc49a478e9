/** Which texts the parser refuses, and with which error. */
module CronRefusals {
  import opened Text
  import opened Calendar
  import opened Cron
  import opened CronForms

  // ------------------------------------------------------------- one item

  predicate IsLetter(c: char) {
    'a' <= c <= 'z' || 'A' <= c <= 'Z'
  }

  predicate IsWord(s: string) {
    s != "" && forall i :: 0 <= i < |s| ==> IsLetter(s[i])
  }

  /** Names are refused: a word as a value, at either end of a range, or as a step. */
  lemma NamesRefused(word: string, tail: string, f: Form, lo: int, hi: int)
    requires IsWord(word) && '/' !in tail
    ensures ParseItem(word, lo, hi) == Refused(BadValue)
    ensures ParseItem(word + "-" + tail, lo, hi) == Refused(BadRange)
    ensures ParseItem(RenderBase(f.base) + "/" + word, lo, hi) == Refused(BadStep)
  {
    NoNumber(word, 0);
    WordAlone(word, lo, hi);
    WordFirst(word, tail, lo, hi);
    FormChars(f);
    WordStep(RenderBase(f.base), word, lo, hi);
  }

  lemma WordAlone(word: string, lo: int, hi: int)
    requires IsWord(word) && Atoi(word).None?
    ensures ParseItem(word, lo, hi) == Refused(BadValue)
  {
    IndexOfFirst(word, '/', |word|);
    assert word[..|word|] == word;
    assert IsLetter(word[0]);
    assert '-' !in word;
  }

  lemma WordFirst(word: string, tail: string, lo: int, hi: int)
    requires IsWord(word) && Atoi(word).None? && '/' !in tail
    ensures ParseItem(word + "-" + tail, lo, hi) == Refused(BadRange)
  {
    var text := word + "-" + tail;
    assert forall i :: 0 <= i < |text| ==> text[i] != '/';
    IndexOfFirst(text, '/', |text|);
    assert text[..|text|] == text && text[|word|] == '-';
    IndexOfFirst(text, '-', |word|);
    assert text[..|word|] == word;
  }

  lemma WordStep(base: string, word: string, lo: int, hi: int)
    requires Atoi(word).None? && '/' !in base
    ensures ParseItem(base + "/" + word, lo, hi) == Refused(BadStep)
  {
    var text := base + "/" + word;
    assert text[|base|] == '/';
    IndexOfFirst(text, '/', |base|);
    assert text[|base| + 1..] == word;
  }

  /** Nothing between two commas is no value. */
  lemma EmptyRefused(lo: int, hi: int)
    ensures ParseItem("", lo, hi) == Refused(BadValue)
  {
    NoNumberAtAll();
  }

  // ------------------------------------------------------------- a whole expression

  /** The search reports a wrong number of fields exactly when there are not five. */
  lemma FieldCountExactly(expr: string, fromNanos: int)
    ensures NextRunIs(expr, fromNanos, Err(FieldCount)) <==> |Fields(expr)| != 5
  {
    if |Fields(expr)| == 5 {
      FieldsFrom(Fields(expr), 0);
    }
  }

  lemma {:induction false} FieldsFrom(parts: seq<string>, k: nat)
    requires |parts| == 5 && k <= 5
    ensures OutcomeFrom(parts, k).Err? ==> OutcomeFrom(parts, k).error.BadField?
    decreases 5 - k
  {
    if k < 5 {
      FieldsFrom(parts, k + 1);
    }
  }

  /** The first field that is refused decides, whatever the fields after it are. */
  lemma {:induction false} FieldRefused(parts: seq<string>, from: nat, k: nat, e: ItemError)
    requires |parts| == 5 && from <= k < 5
    requires forall j :: from <= j < k ==> FieldOutcome(Split(parts[j], ','), FIELD_LO[j], FIELD_HI[j]) == Ok(())
    requires FieldOutcome(Split(parts[k], ','), FIELD_LO[k], FIELD_HI[k]) == Err(e)
    ensures OutcomeFrom(parts, from) == Err(BadField(k, e))
    decreases k - from
  {
    if from < k {
      FieldRefused(parts, from + 1, k, e);
    }
  }

  lemma OneItemRefused(text: string, lo: int, hi: int, e: ItemError)
    requires ',' !in text && ParseItem(text, lo, hi) == Refused(e)
    ensures FieldOutcome(Split(text, ','), lo, hi) == Err(e)
  {
    IndexOfFirst(text, ',', |text|);
    assert Split(text, ',')[0] == text;
  }

  /** So an expression whose minute field is one refused item is refused for that, at every instant. */
  lemma MinuteRefused(text: string, others: seq<string>, expr: string, fromNanos: int, e: ItemError)
    requires IsToken(text) && ',' !in text && ParseItem(text, 0, 59) == Refused(e)
    requires |others| == 4 && (forall p :: p in others ==> IsToken(p)) && expr == Join([text] + others, " ")
    ensures NextRunIs(expr, fromNanos, Err(BadField(0, e)))
  {
    var parts := [text] + others;
    assert forall p :: p in parts ==> p == text || p in others;
    FieldsJoin(parts);
    OneItemRefused(text, 0, 59, e);
    FieldRefused(parts, 0, 0, e);
    assert ParseOutcome(parts) == Err(BadField(0, e));
  }

  /** Expressions the program's own tests reject, as families: no fields, a minute past 59, a word for a
      minute, and a step of zero. */
  lemma Rejected(n: nat, word: string, others: seq<string>, fromNanos: int)
    requires 59 < n <= MAX_INT64 && IsWord(word) && |others| == 4 && forall p :: p in others ==> IsToken(p)
    ensures NextRunIs("", fromNanos, Err(FieldCount))
    ensures NextRunIs(Join([Itoa(n)] + others, " "), fromNanos, Err(BadField(0, OutsideRange)))
    ensures NextRunIs(Join([word] + others, " "), fromNanos, Err(BadField(0, BadValue)))
    ensures NextRunIs(Join([RenderForm(Form(Star, Some(0)))] + others, " "), fromNanos, Err(BadField(0, BadStep)))
  {
    var one, zero := Form(One(n), None), Form(Star, Some(0));
    FormVerdict(one, 0, 59);
    FormIsToken(one);
    MinuteRefused(RenderForm(one), others, Join([RenderForm(one)] + others, " "), fromNanos, OutsideRange);
    assert RenderForm(one) == Itoa(n);
    FormVerdict(zero, 0, 59);
    FormIsToken(zero);
    MinuteRefused(RenderForm(zero), others, Join([RenderForm(zero)] + others, " "), fromNanos, BadStep);
    NamesRefused(word, "", zero, 0, 59);
    MinuteRefused(word, others, Join([word] + others, " "), fromNanos, BadValue);
  }

  lemma FormIsToken(f: Form)
    ensures IsToken(RenderForm(f)) && ',' !in RenderForm(f)
  {
    FormChars(f);
  }
}
