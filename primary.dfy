/**
 * Choosing the primary file of a stack (`findPrimaryImage`): the file whose contents
 * give a renamed stack its checksum. It follows PhotoPrism's rule: a RAW, HEIF, PNG,
 * GIF or video file wins over JPEGs (the last such file in the stack), and among JPEGs
 * the first one with the shortest file name wins.
 */
module Primary {
  import opened Results
  import opened Paths

  /**
   * `path.extname(p).toLocaleLowerCase()`, with ASCII letters lowered and every other
   * character kept (see `Lower`).
   */
  function Ext(p: Path): string {
    Lower(Extname(p))
  }

  /** The JPEG test as written: `.jpg`, or `jpeg` without its dot. */
  predicate IsJpegExt(e: string) {
    e == ".jpg" || e == "jpeg"
  }

  /** The extensions that take over the primary role whatever came before. */
  predicate IsOverridingExt(e: string) {
    e == ".raw" || e == ".heif" || e == ".png" || e == ".gif" || e == ".mp4" || e == ".webm" || e == ".mkv"
  }

  /** How the loop classifies an extension. */
  datatype ExtClass = JpegClass | OverridingClass | OtherClass

  function Classify(e: string): ExtClass {
    if IsJpegExt(e) then JpegClass else if IsOverridingExt(e) then OverridingClass else OtherClass
  }

  /** The UTF-16 code units a character takes: two for one outside the Basic Multilingual Plane. */
  function Utf16Units(c: char): nat {
    if c as int >= 0x1_0000 then 2 else 1
  }

  /** A string's `length` in JavaScript: the number of its UTF-16 code units. */
  function Utf16Length(s: string): nat {
    if s == [] then 0 else Utf16Length(s[..|s| - 1]) + Utf16Units(s[|s| - 1])
  }

  /** Every character takes one or two code units, and one exactly when it lies in the Basic Multilingual Plane. */
  lemma {:induction false} Utf16LengthBounds(s: string)
    ensures |s| <= Utf16Length(s) <= 2 * |s|
    ensures Utf16Length(s) == |s| <==> forall i :: 0 <= i < |s| ==> s[i] as int < 0x1_0000
  {
    if s != [] {
      var init := s[..|s| - 1];
      Utf16LengthBounds(init);
      assert forall i :: 0 <= i < |init| ==> init[i] == s[i];
    }
  }

  /** What the loop looks at in a path: the class of its lower-cased extension and the `length` of its file name. */
  datatype Candidate = Candidate(path: Path, kind: ExtClass, nameLength: nat)

  function Describe(p: Path): Candidate {
    Candidate(p, Classify(Ext(p)), Utf16Length(Basename(p)))
  }

  function DescribeAll(stack: seq<Path>): (cs: seq<Candidate>)
    ensures |cs| == |stack| && forall i :: 0 <= i < |stack| ==> cs[i] == Describe(stack[i])
  {
    seq(|stack|, i requires 0 <= i < |stack| => Describe(stack[i]))
  }

  /** The JPEG test on a candidate. */
  predicate IsJpeg(c: Candidate) {
    c.kind == JpegClass
  }

  predicate IsOverriding(c: Candidate) {
    c.kind == OverridingClass
  }

  /** One turn of the loop: the primary so far, updated with the next file. */
  function Step(main: Option<Candidate>, c: Candidate): Option<Candidate> {
    if main.None? && IsJpeg(c) then Some(c)
    else if IsOverriding(c) then Some(c)
    else if main.Some? && IsJpeg(c) && IsJpeg(main.value) && main.value.nameLength > c.nameLength then Some(c)
    else main
  }

  /** The steps applied from the first file to the last. */
  function Choose(cs: seq<Candidate>): Option<Candidate> {
    if cs == [] then None else Step(Choose(cs[..|cs| - 1]), cs[|cs| - 1])
  }

  function DescribeOpt(main: Option<Path>): Option<Candidate> {
    match main
    case None => None
    case Some(p) => Some(Describe(p))
  }

  function PathOf(c: Option<Candidate>): Option<Path> {
    match c
    case None => None
    case Some(c) => Some(c.path)
  }

  /** What `findPrimaryImage` returns for a stack: the steps applied to the stack's paths in order. */
  function Select(stack: seq<Path>): Option<Path> {
    if stack == [] then None
    else PathOf(Step(DescribeOpt(Select(stack[..|stack| - 1])), Describe(stack[|stack| - 1])))
  }

  /** `findPrimaryImage`. */
  method FindPrimaryImage(stack: seq<Path>) returns (main: Option<Path>)
    ensures main == Select(stack)
  {
    main := None;
    var i := 0;
    while i < |stack|
      invariant 0 <= i <= |stack|
      invariant main == Select(stack[..i])
    {
      assert stack[..i + 1][..i] == stack[..i];
      main := PathOf(Step(DescribeOpt(main), Describe(stack[i])));
      i := i + 1;
    }
    assert stack[..i] == stack;
  }

  // ---------------------------------------------------------------------------
  // Properties.
  // ---------------------------------------------------------------------------

  /** The lower-cased extension is empty or starts with '.', so the `jpeg` comparison never holds. */
  lemma ExtIsNeverBareJpeg(p: Path)
    ensures Ext(p) != "jpeg"
    ensures Classify(Ext(p)) == JpegClass <==> Ext(p) == ".jpg"
  {
    var e := Extname(p);
    if e != "" {
      assert Ext(p)[0] == LowerChar(e[0]) == '.';
    }
  }

  /** The chosen file is one of the stack's files, and an empty stack has none. */
  lemma {:induction false} ChooseInStack(cs: seq<Candidate>)
    ensures Choose(cs).Some? ==> Choose(cs).value in cs
    ensures cs == [] ==> Choose(cs) == None
  {
    if cs != [] {
      var init := cs[..|cs| - 1];
      ChooseInStack(init);
      assert forall x :: x in init ==> x in cs;
    }
  }

  /** The paths chosen step by step are the candidates chosen step by step. */
  lemma {:induction false} SelectIsChoose(stack: seq<Path>)
    ensures DescribeOpt(Select(stack)) == Choose(DescribeAll(stack))
  {
    if stack != [] {
      var n := |stack|;
      var init := stack[..n - 1];
      SelectIsChoose(init);
      assert DescribeAll(stack)[..n - 1] == DescribeAll(init);
    }
  }

  /** The primary is one of the stack's paths, and an empty stack has none. */
  lemma {:induction false} SelectInStack(stack: seq<Path>)
    ensures Select(stack).Some? ==> Select(stack).value in stack
    ensures stack == [] ==> Select(stack) == None
  {
    if stack != [] {
      var n := |stack|;
      var init := stack[..n - 1];
      SelectInStack(init);
      var prev := Select(init);
      assert Step(DescribeOpt(prev), Describe(stack[n - 1])) in {DescribeOpt(prev), Some(Describe(stack[n - 1]))};
      assert PathOf(DescribeOpt(prev)) == prev;
      assert forall x :: x in init ==> x in stack;
    }
  }

  /** When the stack holds an overriding file, the last of them is chosen. */
  lemma {:induction false} LastOverridingWins(cs: seq<Candidate>, i: nat)
    requires i < |cs| && IsOverriding(cs[i])
    requires forall j :: i < j < |cs| ==> !IsOverriding(cs[j])
    ensures Choose(cs) == Some(cs[i])
  {
    var n := |cs|;
    if i < n - 1 {
      var init := cs[..n - 1];
      LastOverridingWins(init, i);
      assert !IsJpeg(cs[i]);
      assert !IsOverriding(cs[n - 1]);
    }
  }

  /**
   * Position i holds the first JPEG with the shortest file name: no JPEG has a shorter
   * name, and every JPEG before it has a longer one.
   */
  predicate FirstShortestJpeg(cs: seq<Candidate>, i: int) {
    && 0 <= i < |cs| && IsJpeg(cs[i])
    && forall j :: 0 <= j < |cs| && IsJpeg(cs[j]) ==>
         cs[i].nameLength <= cs[j].nameLength && (j < i ==> cs[i].nameLength < cs[j].nameLength)
  }

  /**
   * Without overriding files, the first JPEG with the shortest file name is chosen, and
   * nothing is chosen when the stack has no JPEG.
   */
  lemma {:induction false} ShortestJpegWins(cs: seq<Candidate>)
    requires forall j :: 0 <= j < |cs| ==> !IsOverriding(cs[j])
    ensures Choose(cs) == None <==> forall j :: 0 <= j < |cs| ==> !IsJpeg(cs[j])
    ensures Choose(cs).Some? ==> exists i :: FirstShortestJpeg(cs, i) && Choose(cs) == Some(cs[i])
  {
    var n := |cs|;
    if n > 0 {
      var init := cs[..n - 1];
      var c := cs[n - 1];
      assert forall j :: 0 <= j < n - 1 ==> init[j] == cs[j];
      ShortestJpegWins(init);
      var prev := Choose(init);
      assert !IsOverriding(c);
      if prev.Some? {
        var i :| FirstShortestJpeg(init, i) && prev == Some(init[i]);
        ShortestExtends(cs, i);
      } else if IsJpeg(c) {
        FirstJpegIsShortest(cs);
      }
    }
  }

  /** A first shortest JPEG of all but the last candidate stays so, unless the last is a strictly shorter JPEG. */
  lemma ShortestExtends(cs: seq<Candidate>, i: int)
    requires |cs| > 0 && FirstShortestJpeg(cs[..|cs| - 1], i)
    ensures var c := cs[|cs| - 1];
      if IsJpeg(c) && cs[i].nameLength > c.nameLength then FirstShortestJpeg(cs, |cs| - 1) else FirstShortestJpeg(cs, i)
  {
    assert forall j :: 0 <= j < |cs| - 1 ==> cs[..|cs| - 1][j] == cs[j];
  }

  /** A JPEG after candidates none of which is a JPEG is the first shortest one. */
  lemma FirstJpegIsShortest(cs: seq<Candidate>)
    requires |cs| > 0 && IsJpeg(cs[|cs| - 1])
    requires forall j :: 0 <= j < |cs| - 1 ==> !IsJpeg(cs[j])
    ensures FirstShortestJpeg(cs, |cs| - 1)
  {
  }

  /** The JPEG test on a path holds exactly for the extension `.jpg`, in any case. */
  lemma JpegMeansJpg(stack: seq<Path>)
    ensures forall j :: 0 <= j < |stack| ==> (IsJpeg(DescribeAll(stack)[j]) <==> Ext(stack[j]) == ".jpg")
  {
    forall j | 0 <= j < |stack| ensures IsJpeg(DescribeAll(stack)[j]) <==> Ext(stack[j]) == ".jpg" {
      ExtIsNeverBareJpeg(stack[j]);
    }
  }

  /** A stack of files ending in `.jpeg` (any case) has no primary: the comparison with `jpeg` lacks its dot. */
  lemma JpegOnlyStackHasNoPrimary(stack: seq<Path>)
    requires forall j :: 0 <= j < |stack| ==> Ext(stack[j]) == ".jpeg"
    ensures Select(stack) == None
  {
    var cs := DescribeAll(stack);
    assert forall j :: 0 <= j < |cs| ==> cs[j].kind == OtherClass by {
      forall j | 0 <= j < |cs| ensures cs[j].kind == OtherClass {
        assert cs[j] == Describe(stack[j]);
      }
    }
    assert Choose(cs) == None by {
      ShortestJpegWins(cs);
    }
    SelectIsChoose(stack);
  }


  /** `abc.jpg` is a JPEG whose name is 7 code units long. */
  lemma PlainJpegName()
    ensures Describe("abc.jpg") == Candidate("abc.jpg", JpegClass, 7)
  {
    var p := "abc.jpg";
    LastIndexOfAt(p, '/', -1);
    assert Basename(p) == p;
    Utf16LengthBounds(p);
    LastIndexOfAt(p, '.', 3);
    assert Ext(p) == ".jpg";
  }

  /** `a\U{1F600}.jpg` has six characters, but its emoji takes two code units. */
  lemma AstralJpegName()
    ensures Describe("a\U{1F600}.jpg") == Candidate("a\U{1F600}.jpg", JpegClass, 7)
  {
    var q := "a\U{1F600}.jpg";
    LastIndexOfAt(q, '/', -1);
    assert Basename(q) == q;
    assert q[..5][..4] == q[..4] && q[..4][..3] == q[..3] && q[..3][..2] == q[..2] && q[..2][..1] == q[..1];
    assert q[..1][..0] == [];
    assert Utf16Length(q[..1]) == 1;
    assert Utf16Length(q[..2]) == 3;
    assert Utf16Length(q[..3]) == 4;
    assert Utf16Length(q[..4]) == 5;
    assert Utf16Length(q[..5]) == 6;
    LastIndexOfAt(q, '.', 2);
    assert Ext(q) == ".jpg";
  }

  /**
   * Name lengths are compared in UTF-16 code units: `a\U{1F600}.jpg` is as long as
   * `abc.jpg`, so the earlier of the two stays the primary.
   */
  lemma AstralNameCountsTwice()
    ensures Select(["abc.jpg", "a\U{1F600}.jpg"]) == Some("abc.jpg")
  {
    PlainJpegName();
    AstralJpegName();
    EqualJpegsKeepFirst("abc.jpg", "a\U{1F600}.jpg");
  }

  /** Of two JPEGs with names of equal length, the first stays the primary. */
  lemma EqualJpegsKeepFirst(p: Path, q: Path)
    requires IsJpeg(Describe(p)) && IsJpeg(Describe(q))
    requires Describe(p).nameLength == Describe(q).nameLength
    ensures Select([p, q]) == Some(p)
  {
    assert [p, q][..1] == [p];
    assert [p][..0] == [];
    assert Select([p]) == Some(p);
    assert DescribeOpt(Select([p])) == Some(Describe(p));
  }
}
