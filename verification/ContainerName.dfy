/** Names of function containers: DNS labels that identify version and pool slot. */
module ContainerName {
  import opened Wrappers
  import opened Text

  predicate IsLabelChar(c: char) {
    'a' <= c <= 'z' || '0' <= c <= '9' || c == '-'
  }

  predicate IsLabelText(s: string) {
    forall i :: 0 <= i < |s| ==> IsLabelChar(s[i])
  }

  /**
   * `lower()` on one character, as far as it gives label characters, then `_` to `-`. Outside ASCII
   * only the Kelvin sign, and I with a dot above (whose dot becomes a mark of its own), give any.
   */
  function Fold(c: char): char {
    if 'A' <= c <= 'Z' then (c as int - 'A' as int + 'a' as int) as char
    else if c == '\U{212A}' then 'k'
    else if c == '\U{0130}' then 'i'
    else if c == '_' then '-'
    else c
  }

  /** `re.sub(r"[^a-z0-9-]", "", ...)` after folding. */
  function Clean(s: string): (r: string)
    ensures IsLabelText(r)
  {
    if s == [] then []
    else if IsLabelChar(Fold(s[0])) then [Fold(s[0])] + Clean(s[1..])
    else Clean(s[1..])
  }

  /** `strip("-")`. */
  function StripDashes(s: string): (r: string)
    ensures IsLabelText(s) ==> IsLabelText(r)
    ensures r != [] ==> r[0] != '-' && r[|r| - 1] != '-'
    decreases |s|
  {
    if s != [] && s[0] == '-' then StripDashes(s[1..])
    else if s != [] && s[|s| - 1] == '-' then StripDashes(s[..|s| - 1])
    else s
  }

  function Slug(functionId: string): (r: string)
    ensures IsLabelText(r) && r != []
  {
    var stripped := StripDashes(Clean(functionId));
    if stripped == [] then "fn" else stripped
  }

  function Suffix(version: int, poolIndex: int): string {
    var v := "-v" + Str(version);
    if poolIndex > 0 then v + "-p" + Digits(poolIndex) else v
  }

  /** `s[:n]`, which counts from the end when n is negative. */
  function Slice(s: string, n: int): (r: string)
    ensures r <= s
    ensures n >= 0 ==> |r| <= n
  {
    if n >= 0 then (if n <= |s| then s[..n] else s)
    else if -n <= |s| then s[..|s| + n]
    else []
  }

  /** What is left of the slug once prefix and suffix have their room. */
  function Kept(functionId: string, version: int, poolIndex: int): string {
    Slice(Slug(functionId), 63 - |"fn-"| - |Suffix(version, poolIndex)|)
  }

  function Sanitize(functionId: string, version: int, poolIndex: int): string {
    "fn-" + Kept(functionId, version, poolIndex) + Suffix(version, poolIndex)
  }

  /** The number after the one-letter tag of a dash-separated part. */
  function Numbered(part: string): Option<int> {
    if part == [] then None else ParseInt(part[1..])
  }

  /** Reads version and pool slot back off a name, from its last dash-separated parts. */
  function SlotOf(name: string): Option<(int, int)> {
    var (front, _, last) := RPartition(name, '-');
    if last != [] && last[0] == 'p' then
      var version := Numbered(RPartition(front, '-').2);
      var index := Numbered(last);
      if version.Some? && index.Some? then Some((version.value, index.value)) else None
    else
      var version := Numbered(last);
      if version.Some? then Some((version.value, 0)) else None
  }

  /** What follows the last dash is one letter and a number, so it splits off whole. */
  lemma SplitNumbered(head: string, letter: char, n: nat)
    requires letter != '-'
    ensures RPartition(head + ['-', letter] + Digits(n), '-') == (head, true, [letter] + Digits(n))
    ensures Numbered([letter] + Digits(n)) == Some(n)
  {
    DigitsHaveNo(n, '-');
    var tail := [letter] + Digits(n);
    RPartitionJoin(head, '-', tail);
    assert head + ['-', letter] + Digits(n) == head + ['-'] + tail;
    ParseStr(n);
    assert tail[1..] == Digits(n);
  }

  lemma SuffixParts(head: string, version: nat, poolIndex: nat)
    ensures var versioned := head + ['-', 'v'] + Digits(version);
            head + Suffix(version, poolIndex) ==
            if poolIndex > 0 then versioned + ['-', 'p'] + Digits(poolIndex) else versioned
  {
  }

  lemma SlotOfSuffixed(head: string, version: nat, poolIndex: nat)
    ensures SlotOf(head + Suffix(version, poolIndex)) == Some((version, poolIndex))
  {
    SuffixParts(head, version, poolIndex);
    hide Suffix;
    hide RPartition;
    hide Numbered;
    var versioned := head + ['-', 'v'] + Digits(version);
    SplitNumbered(head, 'v', version);
    if poolIndex > 0 {
      SplitNumbered(versioned, 'p', poolIndex);
    }
  }

  /** Every name carries its version and pool slot, however long the function id was. */
  lemma SlotOfSanitized(functionId: string, version: nat, poolIndex: nat)
    ensures SlotOf(Sanitize(functionId, version, poolIndex)) == Some((version, poolIndex))
  {
    SlotOfSuffixed("fn-" + Kept(functionId, version, poolIndex), version, poolIndex);
  }

  /** Containers of different versions or pool slots never share a name, whatever their functions. */
  lemma NamesDistinct(f: string, g: string, v: nat, w: nat, i: nat, j: nat)
    ensures Sanitize(f, v, i) == Sanitize(g, w, j) ==> v == w && i == j
  {
    SlotOfSanitized(f, v, i);
    SlotOfSanitized(g, w, j);
  }

  /**
   * Two containers share a name exactly when version and slot are the same and so is what is kept
   * of their slugs.
   */
  lemma NamesCollideIff(f: string, g: string, v: nat, w: nat, i: nat, j: nat)
    ensures Sanitize(f, v, i) == Sanitize(g, w, j) <==> v == w && i == j && Kept(f, v, i) == Kept(g, w, j)
  {
    NamesDistinct(f, g, v, w, i, j);
    hide Kept;
    hide Suffix;
    if Sanitize(f, v, i) == Sanitize(g, w, j) {
      assert Sanitize(f, v, i)[3..3 + |Kept(f, v, i)|] == Kept(f, v, i);
      assert Sanitize(g, w, j)[3..3 + |Kept(g, w, j)|] == Kept(g, w, j);
    }
  }

  /** What one character of an id turns into. */
  predicate BecomesOf(c: char, out: string) {
    if 'a' <= c <= 'z' || '0' <= c <= '9' then out == [c]
    else if 'A' <= c <= 'Z' then |out| == 1 && 'a' <= out[0] <= 'z' && out[0] as int - c as int == 32
    else if c == '-' || c == '_' then out == "-"
    else if c == '\U{212A}' then out == "k"
    else if c == '\U{0130}' then out == "i"
    else out == ""
  }

  /** Cleaning goes character by character: the characters of an id turn into label characters, or nothing, in order. */
  lemma {:induction false} CleanedInOrder(a: string, c: char, b: string)
    ensures Clean(a + [c] + b) == Clean(a) + Clean([c]) + Clean(b) && BecomesOf(c, Clean([c]))
    decreases |a|
  {
    assert [c][1..] == [];
    if a == [] {
      assert a + [c] + b == [c] + b && ([c] + b)[1..] == b;
    } else {
      CleanedInOrder(a[1..], c, b);
      assert (a + [c] + b)[1..] == a[1..] + [c] + b;
    }
  }

  predicate AllDashes(s: string) {
    forall i :: 0 <= i < |s| ==> s[i] == '-'
  }

  lemma StripOne(s: string)
    ensures if s != [] && s[0] == '-' then StripDashes(s) == StripDashes(s[1..])
            else if s != [] && s[|s| - 1] == '-' then StripDashes(s) == StripDashes(s[..|s| - 1])
            else StripDashes(s) == s
  {
  }

  /** Stripping removes dashes from the two ends, and nothing else. */
  lemma {:induction false} StripIsExact(s: string) returns (front: string, back: string)
    ensures s == front + StripDashes(s) + back && AllDashes(front) && AllDashes(back)
    decreases |s|
  {
    StripOne(s);
    hide StripDashes;
    var core := StripDashes(s);
    front, back := "", "";
    if s != [] && s[0] == '-' {
      var f, b := StripIsExact(s[1..]);
      front, back := ['-'] + f, b;
      assert s == ['-'] + (f + core + b);
    } else if s != [] && s[|s| - 1] == '-' {
      var f, b := StripIsExact(s[..|s| - 1]);
      front, back := f, b + ['-'];
      assert s == (f + core + b) + ['-'];
    }
  }

  lemma {:induction false} OnlyDashesStrip(s: string)
    requires AllDashes(s)
    ensures StripDashes(s) == []
  {
    if s != [] {
      OnlyDashesStrip(s[1..]);
    }
  }

  /** An id that leaves nothing but dashes has the slug of no id at all. */
  lemma NamelessIsFn(id: string)
    requires AllDashes(Clean(id))
    ensures Slug(id) == "fn"
  {
    OnlyDashesStrip(Clean(id));
  }

  /** An id that is a label already. */
  predicate IsLabel(id: string) {
    IsLabelText(id) && id != [] && id[0] != '-' && id[|id| - 1] != '-'
  }

  lemma {:induction false} LabelTextIsClean(s: string)
    requires IsLabelText(s)
    ensures Clean(s) == s
  {
    if s != [] {
      LabelTextIsClean(s[1..]);
    }
  }

  /** The slug of a label is the label itself; so different labels have different slugs. */
  lemma LabelIsItsSlug(id: string)
    requires IsLabel(id)
    ensures Slug(id) == id
  {
    LabelTextIsClean(id);
    hide Clean;
  }

  /** A slug is a label again: taking it twice changes nothing. */
  lemma SlugIsLabel(id: string)
    ensures IsLabel(Slug(id)) && Slug(Slug(id)) == Slug(id)
  {
    LabelIsItsSlug(Slug(id));
    hide Clean;
  }

  lemma KeptWhole(id: string, v: nat, i: nat)
    requires IsLabel(id) && |id| <= 60 - |Suffix(v, i)|
    ensures Kept(id, v, i) == id
    ensures Sanitize(id, v, i) == "fn-" + id + Suffix(v, i)
  {
    LabelIsItsSlug(id);
    hide Slug;
    hide Suffix;
    hide IsLabel;
  }

  /** Functions whose ids are labels that fit never share a name. */
  lemma LabelsKeepApart(f: string, g: string, v: nat, i: nat)
    requires IsLabel(f) && IsLabel(g)
    requires |f| <= 60 - |Suffix(v, i)| && |g| <= 60 - |Suffix(v, i)|
    ensures Sanitize(f, v, i) == Sanitize(g, v, i) <==> f == g
  {
    hide IsLabel;
    KeptWhole(f, v, i);
    KeptWhole(g, v, i);
    hide Kept;
    hide Suffix;
    hide Sanitize;
    NamesCollideIff(f, g, v, v, i, i);
  }

  /** Such a function's containers are named by id and version, and all but the first of a pool by their slot. */
  lemma LabelIsNamed(id: string, v: nat, i: nat)
    requires IsLabel(id) && |id| <= 60 - |Suffix(v, i)|
    ensures var versioned := "fn-" + id + "-v" + Digits(v);
            Sanitize(id, v, i) == if i == 0 then versioned else versioned + "-p" + Digits(i)
  {
    hide IsLabel;
    KeptWhole(id, v, i);
    hide Sanitize;
  }

  /** Different functions do collide: characters outside the label alphabet are folded or dropped. */
  lemma FunctionsMayCollide(v: nat, i: nat)
    ensures "a_b" != "a-b" && Sanitize("a_b", v, i) == Sanitize("a-b", v, i)
  {
    assert Clean("a_b") == Clean("a-b") by {
      assert "a_b"[1..] == "_b" && "a-b"[1..] == "-b" && "_b"[1..] == "b" && "-b"[1..] == "b";
    }
    assert "a_b"[1] != "a-b"[1];
  }

  /** Long ids collide as well: slugs that agree on the first 60 characters give the same names. */
  lemma LongIdsCollide(f: string, g: string, v: nat, i: nat)
    requires Slice(Slug(f), 60) == Slice(Slug(g), 60) && |Suffix(v, i)| <= 60
    ensures Sanitize(f, v, i) == Sanitize(g, v, i)
  {
    hide Slug;
    hide Suffix;
    var n := 60 - |Suffix(v, i)|;
    assert Slice(Slug(f), n) == Slice(Slice(Slug(f), 60), n);
    assert Slice(Slug(g), n) == Slice(Slice(Slug(g), 60), n);
  }

  lemma SuffixIsLabelText(version: nat, poolIndex: nat)
    ensures IsLabelText(Suffix(version, poolIndex))
    ensures var s := Suffix(version, poolIndex); s != [] && IsDigit(s[|s| - 1])
  {
    assert forall n: nat, i :: 0 <= i < |Digits(n)| ==> IsDigit(Digits(n)[i]);
    var last := Digits(if poolIndex > 0 then poolIndex else version);
    assert IsDigit(last[|last| - 1]);
    var v := "-v" + Digits(version);
    assert IsLabelText(v);
    if poolIndex > 0 {
      assert Suffix(version, poolIndex) == v + "-p" + Digits(poolIndex);
    }
  }

  lemma LabelTextConcat(a: string, b: string)
    requires IsLabelText(a) && IsLabelText(b)
    ensures IsLabelText(a + b)
  {
  }

  lemma KeptIsLabelText(functionId: string, version: int, poolIndex: int)
    ensures IsLabelText(Kept(functionId, version, poolIndex))
  {
    var slug, kept := Slug(functionId), Kept(functionId, version, poolIndex);
    hide Slug;
    hide Suffix;
    forall i | 0 <= i < |kept|
      ensures IsLabelChar(kept[i])
    {
      assert kept[i] == slug[i];
    }
  }

  lemma LengthOfName(functionId: string, version: nat, poolIndex: nat)
    ensures |Sanitize(functionId, version, poolIndex)| <= 63 <==> |Suffix(version, poolIndex)| <= 60
  {
    hide Slug;
    hide Suffix;
  }

  /** The name is a label of at most 63 characters exactly when its suffix leaves room. */
  lemma SanitizedIsLabel(functionId: string, version: nat, poolIndex: nat)
    ensures var name := Sanitize(functionId, version, poolIndex);
            IsLabelText(name) && name[0] != '-' && name[|name| - 1] != '-'
    ensures |Sanitize(functionId, version, poolIndex)| <= 63 <==> |Suffix(version, poolIndex)| <= 60
  {
    var suffix, kept := Suffix(version, poolIndex), Kept(functionId, version, poolIndex);
    LengthOfName(functionId, version, poolIndex);
    SuffixIsLabelText(version, poolIndex);
    KeptIsLabelText(functionId, version, poolIndex);
    hide Kept;
    hide Suffix;
    LabelTextConcat("fn-", kept);
    LabelTextConcat("fn-" + kept, suffix);
    var name := Sanitize(functionId, version, poolIndex);
    assert name[|name| - 1] == suffix[|suffix| - 1];
  }
}
