/** How an edit log shows the old and the new content (logging/messages/message_update.go): pieces of at most a thousand
    characters, joined by ellipses, and both texts as files when they are long. */
module ContentSplit {
  import opened Embeds

  const ELLIPSIS: string := "\U{2026}"
  const OLD: string := "Old content"
  const OLD_CONT: string := "Old content (cont.)"
  const NEW: string := "New content"
  const NEW_CONT: string := "New content (cont.)"
  const SPACER: Field := Field("\U{200B}", "\U{200B}")

  // ---- reference: the fields in closed form ----

  function Min(a: nat, b: nat): nat {
    if a < b then a else b
  }

  /** How much of the old text is shown. */
  function OldShown(c: string): nat {
    Min(|c|, 3500)
  }

  /** How much of the new text is shown. */
  function NewShown(c: string): nat {
    if |c| >= 2024 then 2015 else |c|
  }

  function OldCount(c: string): nat {
    if |c| <= 1000 then 1 else if |c| <= 2000 then 2 else if |c| <= 3000 then 3 else 4
  }

  /** Piece i of n trails off when another piece follows, except the third of four, and when the text is cut after it.
      */
  predicate OldTrails(i: nat, n: nat, cut: bool) {
    (i == 0 && n > 1) || (i == 1 && n > 2) || (i == 3 && cut)
  }

  /** The text with an ellipsis on the given sides. */
  function Framed(text: string, lead: bool, trail: bool): string {
    if lead && trail then ELLIPSIS + text + ELLIPSIS
    else if lead then ELLIPSIS + text
    else if trail then text + ELLIPSIS
    else text
  }

  function OldField(c: string, i: nat): Field
    requires i < OldCount(c)
  {
    Field(if i == 0 then OLD else OLD_CONT,
          Framed(c[1000 * i..Min(1000 * (i + 1), OldShown(c))], i > 0, OldTrails(i, OldCount(c), |c| > 3500)))
  }

  function OldFields(c: string): seq<Field> {
    seq(OldCount(c), i requires 0 <= i < OldCount(c) => OldField(c, i))
  }

  function NewCount(c: string): nat {
    if |c| <= 1000 then 1 else 2
  }

  function NewField(c: string, i: nat): Field
    requires i < NewCount(c)
  {
    if i == 0 then Field(NEW, Framed(c[..Min(1000, |c|)], false, NewCount(c) > 1))
    else Field(NEW_CONT, Framed(c[1000..NewShown(c)], true, NewShown(c) < |c|))
  }

  function NewFields(c: string): seq<Field> {
    seq(NewCount(c), i requires 0 <= i < NewCount(c) => NewField(c, i))
  }

  function ContentFields(before: string, after: string): seq<Field> {
    OldFields(before) + [SPACER] + NewFields(after)
  }

  function FilesFor(before: string, after: string): seq<File> {
    if |after| >= 2000 || |before| >= 2000 then [File("before.txt", before), File("after.txt", after)] else []
  }

  // ---- reading the texts back ----

  function Strip(s: string, lead: bool, trail: bool): string {
    var t := if lead && s != "" then s[1..] else s;
    if trail && t != "" then t[..|t| - 1] else t
  }

  /** The old fields without their ellipses, joined. A fourth field of 502 characters is a cut one. */
  function JoinOld(fields: seq<Field>, i: nat): string
    requires i <= |fields|
    decreases |fields| - i
  {
    if i == |fields| then ""
    else Strip(fields[i].value, i > 0, OldTrails(i, |fields|, |fields[i].value| == 502)) + JoinOld(fields, i + 1)
  }

  /** The new fields without their ellipses, joined; cut tells whether the last one trails off. */
  function JoinNew(fields: seq<Field>, cut: bool): string {
    if fields == [] then ""
    else if |fields| == 1 then fields[0].value
    else Strip(fields[0].value, false, true) + Strip(fields[1].value, true, cut)
  }

  /** Leading fields with one of two names. */
  function Leading(fields: seq<Field>, a: string, b: string): seq<Field> {
    if fields == [] || (fields[0].name != a && fields[0].name != b) then []
    else [fields[0]] + Leading(fields[1..], a, b)
  }

  /** Old and new content as the log's readers can recover them. */
  function Decode(fields: seq<Field>, files: seq<File>): (string, string) {
    if |files| == 2 then (files[0].content, files[1].content)
    else
      var olds := Leading(fields, OLD, OLD_CONT);
      var rest := if |olds| < |fields| then fields[|olds| + 1..] else [];
      (JoinOld(olds, 0), JoinNew(Leading(rest, NEW, NEW_CONT), false))
  }

  /** Fields that follow the content: they do not begin with a content field. */
  ghost predicate Others(rest: seq<Field>) {
    rest == [] || (rest[0].name != NEW && rest[0].name != NEW_CONT)
  }

  // ---- the properties ----

  lemma OldPieceStripped(c: string, i: nat)
    requires i < OldCount(c)
    ensures var v := OldField(c, i).value;
            Strip(v, i > 0, OldTrails(i, OldCount(c), |v| == 502)) == c[1000 * i..Min(1000 * (i + 1), OldShown(c))]
  {
  }

  lemma {:induction false} OldPiecesJoin(c: string, fields: seq<Field>, i: nat)
    requires fields == OldFields(c) && i <= |fields|
    ensures JoinOld(fields, i) == c[Min(1000 * i, OldShown(c))..OldShown(c)]
    decreases |fields| - i
  {
    if i < |fields| {
      OldPiecesJoin(c, fields, i + 1);
      OldPieceStripped(c, i);
      assert fields[i] == OldField(c, i);
      var m := Min(1000 * (i + 1), OldShown(c));
      assert c[1000 * i..OldShown(c)] == c[1000 * i..m] + c[m..OldShown(c)];
    }
  }

  /** The old fields, ellipses removed, are the old text up to its first 3500 characters. */
  lemma OldFieldsShowPrefix(c: string)
    ensures JoinOld(OldFields(c), 0) == c[..OldShown(c)]
  {
    OldPiecesJoin(c, OldFields(c), 0);
  }

  /** The new fields, ellipses removed, are the whole new text up to 2023 characters and its first 2015 beyond. */
  lemma NewFieldsShowPrefix(c: string)
    ensures JoinNew(NewFields(c), NewShown(c) < |c|) == c[..NewShown(c)]
  {
  }

  /** Whenever a text is cut, both full texts are attached. */
  lemma CutTextsAreAttached(before: string, after: string)
    requires OldShown(before) < |before| || NewShown(after) < |after|
    ensures FilesFor(before, after) == [File("before.txt", before), File("after.txt", after)]
  {
  }

  ghost predicate Named(fields: seq<Field>, a: string, b: string) {
    forall i | 0 <= i < |fields| :: fields[i].name == a || fields[i].name == b
  }

  lemma {:induction false} LeadingSplit(a: seq<Field>, b: seq<Field>, x: string, y: string)
    requires Named(a, x, y)
    requires b == [] || (b[0].name != x && b[0].name != y)
    ensures Leading(a + b, x, y) == a
  {
    if a == [] {
      assert a + b == b;
    } else {
      assert (a + b)[1..] == a[1..] + b;
      LeadingSplit(a[1..], b, x, y);
    }
  }

  lemma DecodeParts(olds: seq<Field>, news: seq<Field>, rest: seq<Field>)
    requires Named(olds, OLD, OLD_CONT) && Named(news, NEW, NEW_CONT)
    requires Others(rest)
    ensures Decode(olds + [SPACER] + news + rest, []) == (JoinOld(olds, 0), JoinNew(news, false))
  {
    var fields := olds + [SPACER] + news + rest;
    assert |SPACER.name| == 1 && |OLD| == |NEW| == 11 && |OLD_CONT| == |NEW_CONT| == 19;
    assert fields == olds + ([SPACER] + news + rest);
    LeadingSplit(olds, [SPACER] + news + rest, OLD, OLD_CONT);
    assert fields[|olds| + 1..] == news + rest;
    LeadingSplit(news, rest, NEW, NEW_CONT);
  }

  /** Fields and files determine both texts exactly, whatever other fields follow. */
  lemma SplitIsLossless(before: string, after: string, rest: seq<Field>)
    requires Others(rest)
    ensures Decode(ContentFields(before, after) + rest, FilesFor(before, after)) == (before, after)
  {
    if FilesFor(before, after) == [] {
      DecodeParts(OldFields(before), NewFields(after), rest);
      OldFieldsShowPrefix(before);
      NewFieldsShowPrefix(after);
      assert before[..|before|] == before && after[..|after|] == after;
    }
  }

  /** Two different edits never give the same log, whatever other fields each of them has. */
  lemma DifferentEditsDiffer(o: string, n: string, rest: seq<Field>, o': string, n': string, rest': seq<Field>)
    requires Others(rest) && Others(rest')
    requires ContentFields(o, n) + rest == ContentFields(o', n') + rest' && FilesFor(o, n) == FilesFor(o', n')
    ensures o == o' && n == n'
  {
    SplitIsLossless(o, n, rest);
    SplitIsLossless(o', n', rest');
  }

  // ---- what the fields tell without the files ----

  /** A text of n characters. */
  function Filler(n: nat): (s: string)
    ensures |s| == n
  {
    seq(n, _ => 'a')
  }

  /** The new text is shown in full and does not look like a cut one. */
  predicate ReadableNew(c: string) {
    |c| < 2024 && !(|c| == 2016 && c[2015..] == ELLIPSIS)
  }

  /** Only an unreadable text shows like a cut one. */
  lemma CutShowsUnreadable(c: string, d: string)
    requires |d| >= 2024 && NewFields(d) == NewFields(c)
    ensures !ReadableNew(c)
  {
    var v := NewField(d, 1).value;
    assert NewFields(c)[1] == NewFields(d)[1] == NewField(d, 1);
    assert |v| == 1017 && v[1016] == ELLIPSIS[0];
    if |c| < 2024 {
      assert NewField(c, 1).value == ELLIPSIS + c[1000..] == v;
      assert c[2015..] == ELLIPSIS;
    }
  }

  lemma NewFieldsOfReadable(c: string, d: string)
    requires NewFields(d) == NewFields(c)
    ensures ReadableNew(c) ==> d == c
  {
    if |d| >= 2024 {
      CutShowsUnreadable(c, d);
    } else if |c| < 2024 {
      NewFieldsShowPrefix(c);
      NewFieldsShowPrefix(d);
      assert c[..|c|] == c && d[..|d|] == d;
    }
  }

  /** Another text with the same fields as an unreadable one. */
  function NewTwin(c: string): string
    requires !ReadableNew(c)
  {
    if |c| >= 2024 then c + "." else c[..2015] + Filler(9)
  }

  /** A long text ending in an ellipsis shows like a cut one. */
  lemma FieldsAloneAreAmbiguous(c: string, d: string)
    requires |c| == 2016 && c[2015..] == ELLIPSIS && |d| >= 2024 && d[..2015] == c[..2015]
    ensures c != d && NewFields(c) == NewFields(d)
  {
    assert c[..1000] == c[..2015][..1000] == d[..1000];
    assert c[1000..2015] == c[..2015][1000..] == d[1000..2015];
    assert c[1000..2016] == c[1000..2015] + ELLIPSIS;
    assert NewField(c, 1).value == ELLIPSIS + c[1000..2016] == ELLIPSIS + c[1000..2015] + ELLIPSIS;
  }

  lemma NewTwinShowsSame(c: string)
    requires !ReadableNew(c)
    ensures NewTwin(c) != c && NewFields(NewTwin(c)) == NewFields(c)
  {
    var d := NewTwin(c);
    if |c| < 2024 {
      FieldsAloneAreAmbiguous(c, d);
    } else {
      assert d[..1000] == c[..1000] && d[1000..2015] == c[1000..2015];
    }
  }

  /** The new fields alone determine the new text exactly when it is shorter than 2024 characters and not one of 2016
      that ends in an ellipsis. */
  lemma NewFieldsDetermineIff(c: string)
    ensures (forall d :: NewFields(d) == NewFields(c) ==> d == c)
            <==> |c| < 2024 && !(|c| == 2016 && c[2015..] == ELLIPSIS)
  {
    if ReadableNew(c) {
      forall d | NewFields(d) == NewFields(c) ensures d == c {
        NewFieldsOfReadable(c, d);
      }
    } else {
      NewTwinShowsSame(c);
    }
  }

  lemma OldFieldsOfReadable(c: string, d: string)
    requires OldFields(d) == OldFields(c)
    ensures |c| <= 3500 ==> d == c
  {
    assert |d| > 3500 ==> |OldFields(d)[3].value| == 502;
    assert 3000 < |c| <= 3500 ==> |OldFields(c)[3].value| <= 501;
    OldFieldsShowPrefix(c);
    OldFieldsShowPrefix(d);
    assert c[..|c|] == c && d[..|d|] == d;
  }

  lemma OldTwinShowsSame(c: string)
    requires |c| > 3500
    ensures c + "." != c && OldFields(c + ".") == OldFields(c)
  {
    var d := c + ".";
    forall i: nat | i < 4 ensures OldField(d, i) == OldField(c, i) {
      var m := Min(1000 * (i + 1), 3500);
      assert d[1000 * i..m] == c[1000 * i..m];
    }
  }

  /** The old fields alone determine the old text exactly when it has at most 3500 characters. */
  lemma OldFieldsDetermineIff(c: string)
    ensures (forall d :: OldFields(d) == OldFields(c) ==> d == c) <==> |c| <= 3500
  {
    if |c| <= 3500 {
      forall d | OldFields(d) == OldFields(c) ensures d == c {
        OldFieldsOfReadable(c, d);
      }
    } else {
      OldTwinShowsSame(c);
    }
  }

  lemma ContentFieldsParts(o: string, n: string, o': string, n': string)
    requires ContentFields(o, n) == ContentFields(o', n')
    ensures OldFields(o) == OldFields(o') && NewFields(n) == NewFields(n')
  {
    assert |SPACER.name| == 1 && |OLD| == 11 && |OLD_CONT| == 19;
    var f, f' := ContentFields(o, n), ContentFields(o', n');
    assert f == OldFields(o) + ([SPACER] + NewFields(n)) && f' == OldFields(o') + ([SPACER] + NewFields(n'));
    LeadingSplit(OldFields(o), [SPACER] + NewFields(n), OLD, OLD_CONT);
    LeadingSplit(OldFields(o'), [SPACER] + NewFields(n'), OLD, OLD_CONT);
    assert NewFields(n) == f[|OldFields(o)| + 1..] && NewFields(n') == f'[|OldFields(o')| + 1..];
  }

  /** Without files, the fields determine the whole edit exactly when neither text is cut and the new one does not look
      like a cut one. */
  lemma FieldsDetermineEditIff(o: string, n: string)
    ensures (forall o', n' :: ContentFields(o', n') == ContentFields(o, n) ==> o' == o && n' == n)
            <==> |o| <= 3500 && |n| < 2024 && !(|n| == 2016 && n[2015..] == ELLIPSIS)
  {
    if |o| > 3500 {
      OldTwinShowsSame(o);
      assert ContentFields(o + ".", n) == ContentFields(o, n);
    } else if !ReadableNew(n) {
      NewTwinShowsSame(n);
      assert ContentFields(o, NewTwin(n)) == ContentFields(o, n);
    } else {
      forall o', n' | ContentFields(o', n') == ContentFields(o, n) ensures o' == o && n' == n {
        ContentFieldsParts(o, n, o', n');
        OldFieldsOfReadable(o, o');
        NewFieldsOfReadable(n, n');
      }
    }
  }

  // ---- limits ----

  /** Every content field fits Discord's limit on field values, and there are at most seven of them. */
  lemma FieldsFit(before: string, after: string)
    ensures |ContentFields(before, after)| <= 7
    ensures forall f | f in ContentFields(before, after) :: |f.value| <= VALUE_LIMIT
  {
  }

  // ---- how long an edit log gets ----

  lemma LengthOfFour(fields: seq<Field>)
    requires |fields| <= 4
    ensures FieldsLength(fields) ==
            (if |fields| > 0 then |fields[0].name| + |fields[0].value| else 0)
            + (if |fields| > 1 then |fields[1].name| + |fields[1].value| else 0)
            + (if |fields| > 2 then |fields[2].name| + |fields[2].value| else 0)
            + (if |fields| > 3 then |fields[3].name| + |fields[3].value| else 0)
  {
    if |fields| > 0 {
      var rest := fields[1..];
      assert |rest| > 0 ==> FieldsLength(rest) == |rest[0].name| + |rest[0].value| + FieldsLength(rest[1..]);
      if |rest| > 1 {
        assert rest[1..] == fields[2..];
        assert |rest| > 2 ==> fields[2..][1..] == fields[3..];
      }
    }
  }

  /** Names, text shown and ellipses of the old content. */
  lemma OldLength(c: string)
    ensures FieldsLength(OldFields(c)) ==
            if |c| <= 1000 then 11 + |c|
            else if |c| <= 2000 then 32 + |c|
            else if |c| <= 3000 then 53 + |c|
            else if |c| <= 3500 then 73 + |c|
            else 3574
  {
    assert |OLD| == 11 && |OLD_CONT| == 19;
    LengthOfFour(OldFields(c));
  }

  lemma NewLength(c: string)
    ensures FieldsLength(NewFields(c)) ==
            if |c| <= 1000 then 11 + |c| else if |c| < 2024 then 32 + |c| else 2048
  {
    assert |NEW| == 11 && |NEW_CONT| == 19;
    LengthOfFour(NewFields(c));
  }

  lemma ContentLength(before: string, after: string)
    ensures FieldsLength(ContentFields(before, after))
            == FieldsLength(OldFields(before)) + 2 + FieldsLength(NewFields(after))
  {
    var o, n := OldFields(before), NewFields(after);
    FieldsLengthAppend(o + [SPACER], n);
    FieldsLengthAppend(o, [SPACER]);
    assert [SPACER][1..] == [] && FieldsLength([SPACER]) == 2;
  }

  /** Every edit log keeps Discord's limit on an embed exactly when the embed's other text is at most 369 characters, an
      ellipsis and a zero-width space counting as one each. */
  lemma EditLogsFit(other: nat)
    ensures (forall o, n :: FieldsLength(ContentFields(o, n)) + other <= 6000) <==> other <= 369
  {
    forall o, n ensures FieldsLength(ContentFields(o, n)) <= 5631 {
      ContentLength(o, n);
      OldLength(o);
      NewLength(n);
    }
    var o, n := Filler(3501), Filler(2023);
    ContentLength(o, n);
    OldLength(o);
    NewLength(n);
    assert FieldsLength(ContentFields(o, n)) == 5631;
  }

  lemma ShortContentLength(before: string, after: string)
    requires |before| < 2000 && |after| < 2000
    ensures FieldsLength(ContentFields(before, after)) <= 4064
    ensures |before| == |after| == 1999 ==> FieldsLength(ContentFields(before, after)) == 4064
  {
    ContentLength(before, after);
    OldLength(before);
    NewLength(after);
  }

  /** Edit logs without files stay below the batch limit for every edit exactly when the embed's other text is at most
      1935 characters. */
  lemma QueuedUpdatesFit(other: nat)
    ensures (forall o, n | |o| < 2000 && |n| < 2000 :: FieldsLength(ContentFields(o, n)) + other < 6000)
            <==> other <= 1935
  {
    forall o, n | |o| < 2000 && |n| < 2000 ensures FieldsLength(ContentFields(o, n)) <= 4064 {
      ShortContentLength(o, n);
    }
    var long := Filler(1999);
    ShortContentLength(long, long);
    assert FieldsLength(ContentFields(long, long)) == 4064;
  }

  // ---- building the fields, branch by branch ----

  method OldContentFields(before: string) returns (fields: seq<Field>)
    ensures fields == OldFields(before)
  {
    fields := [];
    if |before| > 1000 {
      fields := fields + [Field(OLD, before[..1000] + ELLIPSIS)];
      if |before| > 2000 {
        if |before| > 3000 {
          var val := before[3000..];
          if |val| > 500 {
            val := val[..500] + ELLIPSIS;
          }
          fields := fields + [Field(OLD_CONT, ELLIPSIS + before[1000..2000] + ELLIPSIS),
                              Field(OLD_CONT, ELLIPSIS + before[2000..3000]),
                              Field(OLD_CONT, ELLIPSIS + val)];
        } else {
          fields := fields + [Field(OLD_CONT, ELLIPSIS + before[1000..2000] + ELLIPSIS),
                              Field(OLD_CONT, ELLIPSIS + before[2000..])];
        }
      } else {
        fields := fields + [Field(OLD_CONT, ELLIPSIS + before[1000..])];
      }
    } else {
      fields := fields + [Field(OLD, before)];
    }
    assert |before| > 3500 ==> before[3000..][..500] == before[3000..3500];
    assert |before| > 3500 ==> ELLIPSIS + (before[3000..3500] + ELLIPSIS) == ELLIPSIS + before[3000..3500] + ELLIPSIS;
    assert before[..|before|] == before;
  }

  method NewContentFields(after: string) returns (fields: seq<Field>)
    ensures fields == NewFields(after)
  {
    fields := [];
    if |after| > 1000 {
      fields := fields + [Field(NEW, after[..1000] + ELLIPSIS)];
      if |after| > 2000 {
        var val := after[1000..];
        if |val| >= 1024 {
          val := val[..1015] + ELLIPSIS;
        }
        fields := fields + [Field(NEW_CONT, ELLIPSIS + val)];
      } else {
        fields := fields + [Field(NEW_CONT, ELLIPSIS + after[1000..])];
      }
    } else {
      fields := fields + [Field(NEW, after)];
    }
    assert |after| >= 2024 ==> after[1000..][..1015] == after[1000..2015];
    assert |after| >= 2024 ==> ELLIPSIS + (after[1000..2015] + ELLIPSIS) == ELLIPSIS + after[1000..2015] + ELLIPSIS;
    assert after[..|after|] == after;
  }

  /** The content part of the embed, in front of the fields about channel, sender and link. */
  method UpdateFields(before: string, after: string, rest: seq<Field>) returns (fields: seq<Field>)
    ensures fields == ContentFields(before, after) + rest
  {
    var olds := OldContentFields(before);
    var news := NewContentFields(after);
    fields := olds + [SPACER] + news + rest;
  }

  /** The files, with which the embed's fields tell both texts exactly. */
  method AttachedFiles(before: string, after: string) returns (files: seq<File>)
    ensures files == FilesFor(before, after)
    ensures files == [] <==> |before| < 2000 && |after| < 2000
    ensures forall rest | Others(rest) :: Decode(ContentFields(before, after) + rest, files) == (before, after)
  {
    forall rest | Others(rest)
      ensures Decode(ContentFields(before, after) + rest, FilesFor(before, after)) == (before, after)
    {
      SplitIsLossless(before, after, rest);
    }
    files := [];
    if |after| >= 2000 || |before| >= 2000 {
      files := [File("before.txt", before), File("after.txt", after)];
    }
  }
}
