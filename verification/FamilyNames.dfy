/** Sibling families: how a name gives its family's key, how a family is printed as a handle, and how
    a handle is read back. A string is its bytes. */
module FamilyNames {
  import opened Options

  /** The shared prefix, and the separator before the random suffix if there is one. */
  datatype Key = Key(prefix: string, sep: string)

  /** A root directory and a family in it. */
  datatype Place = Place(root: string, key: Key)

  const MIN_SUFFIX := 6

  predicate IsDigit(c: char) {
    '0' <= c <= '9'
  }

  predicate IsLower(c: char) {
    'a' <= c <= 'z'
  }

  predicate IsUpper(c: char) {
    'A' <= c <= 'Z'
  }

  predicate IsAlnum(c: char) {
    IsDigit(c) || IsLower(c) || IsUpper(c)
  }

  predicate IsSeparator(c: char) {
    c == '-' || c == '_' || c == '.'
  }

  predicate AllDigits(s: string) {
    forall i :: 0 <= i < |s| ==> IsDigit(s[i])
  }

  /** Six or more letters and digits that are not a word in one case. */
  predicate LooksRandom(s: string) {
    && |s| >= MIN_SUFFIX
    && (forall i :: 0 <= i < |s| ==> IsAlnum(s[i]))
    && !(forall i :: 0 <= i < |s| ==> IsLower(s[i]))
    && !(forall i :: 0 <= i < |s| ==> IsUpper(s[i]))
  }

  // ---- From a name to its key ----

  /** The length of the longest run of digits that ends the string. */
  function TrailingDigits(s: string): (n: nat)
    ensures n <= |s| && AllDigits(s[|s| - n..])
    ensures n < |s| ==> !IsDigit(s[|s| - n - 1])
  {
    if s == [] || !IsDigit(s[|s| - 1]) then 0 else TrailingDigits(s[..|s| - 1]) + 1
  }

  /** Where the last separator is, or -1. */
  function LastSeparator(s: string): (i: int)
    ensures -1 <= i < |s| && (i >= 0 ==> IsSeparator(s[i]))
    ensures forall j :: i < j < |s| ==> !IsSeparator(s[j])
  {
    if s == [] then -1 else if IsSeparator(s[|s| - 1]) then |s| - 1 else LastSeparator(s[..|s| - 1])
  }

  /** The name is a stem and six or more digits. The stem ends in something else, and has no newline
      before that. */
  predicate EndsInDigits(name: string) {
    var n := TrailingDigits(name);
    n >= MIN_SUFFIX && n < |name| && '\n' !in name[..|name| - n - 1]
  }

  function KeyOf(name: string): Option<Key> {
    if EndsInDigits(name) then
      var stem := name[..|name| - TrailingDigits(name)];
      var n := |stem| - 1;
      if n > 0 && IsSeparator(stem[n]) then Some(Key(stem[..n], stem[n..])) else Some(Key(stem, ""))
    else
      var i := LastSeparator(name);
      if i > 0 && LooksRandom(name[i + 1..]) then Some(Key(name[..i], name[i..i + 1])) else None
  }

  // ---- What a key says about the name ----

  function Stem(k: Key): string {
    k.prefix + k.sep
  }

  /** The last separator of the stem is not part of the prefix, unless the stem is nothing else. */
  predicate Normal(k: Key) {
    && k.prefix != ""
    && (if k.sep == "" then |k.prefix| == 1 || !IsSeparator(k.prefix[|k.prefix| - 1])
        else |k.sep| == 1 && IsSeparator(k.sep[0]))
  }

  /** The whole prefix is one separator. */
  predicate Lone(k: Key) {
    k.sep == "" && |k.prefix| == 1 && IsSeparator(k.prefix[0])
  }

  /** A name with a key is the key's stem and a suffix that looks random or is all digits. */
  lemma KeySplits(name: string)
    requires KeyOf(name).Some?
    ensures var k := KeyOf(name).value;
            && Normal(k) && Stem(k) <= name
            && |name| - |Stem(k)| >= 6
            && (AllDigits(name[|Stem(k)|..]) || LooksRandom(name[|Stem(k)|..]))
            && (k.sep == "" ==> AllDigits(name[|Stem(k)|..]))
  {
    var k := KeyOf(name).value;
    if EndsInDigits(name) {
      assert Stem(k) == name[..|name| - TrailingDigits(name)];
    } else {
      var i := LastSeparator(name);
      assert Stem(k) == name[..i + 1];
    }
  }

  lemma {:induction false} DigitsAfter(stem: string, digits: string)
    requires AllDigits(digits) && (stem == "" || !IsDigit(stem[|stem| - 1]))
    ensures TrailingDigits(stem + digits) == |digits|
  {
    var s, n := stem + digits, |digits| - 1;
    if digits == "" {
      assert s == stem;
    } else {
      assert s[..|s| - 1] == stem + digits[..n];
      DigitsAfter(stem, digits[..n]);
    }
  }

  function KeyOfStem(stem: string): Key
    requires stem != ""
  {
    var n := |stem| - 1;
    if n > 0 && IsSeparator(stem[n]) then Key(stem[..n], stem[n..]) else Key(stem, "")
  }

  /** Names made from one stem by adding six or more digits are siblings. */
  lemma DigitSiblings(stem: string, digits: string)
    requires stem != "" && !IsDigit(stem[|stem| - 1]) && '\n' !in stem[..|stem| - 1]
    requires AllDigits(digits) && |digits| >= 6
    ensures KeyOf(stem + digits) == Some(KeyOfStem(stem))
  {
    DigitsAfter(stem, digits);
    var name := stem + digits;
    assert name[..|name| - |digits|] == stem;
    assert name[..|name| - |digits| - 1] == stem[..|stem| - 1];
  }

  lemma {:induction false} SeparatorBefore(head: string, tail: string)
    requires head != "" && IsSeparator(head[|head| - 1]) && forall i :: 0 <= i < |tail| ==> !IsSeparator(tail[i])
    ensures LastSeparator(head + tail) == |head| - 1
  {
    var s, n := head + tail, |tail| - 1;
    if tail == "" {
      assert s == head;
    } else {
      assert s[..|s| - 1] == head + tail[..n];
      SeparatorBefore(head, tail[..n]);
    }
  }

  lemma {:induction false} DigitsOfTail(head: string, tail: string)
    requires !AllDigits(tail)
    ensures TrailingDigits(head + tail) == TrailingDigits(tail)
  {
    var s, n := head + tail, |tail| - 1;
    assert s[|s| - 1] == tail[n];
    if IsDigit(tail[n]) {
      var i :| 0 <= i < |tail| && !IsDigit(tail[i]);
      assert !IsDigit(tail[..n][i]);
      assert s[..|s| - 1] == head + tail[..n];
      DigitsOfTail(head, tail[..n]);
    }
  }

  /** Names made from one prefix and separator by adding a suffix that looks random are siblings,
      unless the suffix itself ends in six digits. */
  lemma RandomSiblings(prefix: string, sep: char, suffix: string)
    requires prefix != "" && IsSeparator(sep) && LooksRandom(suffix)
    requires !AllDigits(suffix) && TrailingDigits(suffix) < 6
    ensures KeyOf(prefix + [sep] + suffix) == Some(Key(prefix, [sep]))
  {
    var head := prefix + [sep];
    var name := head + suffix;
    DigitsOfTail(head, suffix);
    SeparatorBefore(head, suffix);
    assert name[|prefix| + 1..] == suffix;
    assert name[..|prefix|] == prefix && name[|prefix|..|prefix| + 1] == [sep];
  }

  /** A name whose last part is a word in one case is in no family. */
  lemma WordsHaveNoKey(prefix: string, sep: char, word: string)
    requires IsSeparator(sep) && word != ""
    requires (forall i :: 0 <= i < |word| ==> IsLower(word[i])) || (forall i :: 0 <= i < |word| ==> IsUpper(word[i]))
    ensures KeyOf(prefix + [sep] + word) == None
  {
    var head := prefix + [sep];
    assert !IsDigit(word[|word| - 1]);
    DigitsOfTail(head, word);
    SeparatorBefore(head, word);
    assert (head + word)[|prefix| + 1..] == word;
  }

  // ---- What the characters are ----

  const DIGITS := "0123456789"
  const LOWER := "abcdefghijklmnopqrstuvwxyz"
  const UPPER := "ABCDEFGHIJKLMNOPQRSTUVWXYZ"

  /** The character classes, listed. */
  lemma ClassesAre(c: char)
    ensures IsSeparator(c) <==> c in "-_."
    ensures IsDigit(c) <==> c in DIGITS
    ensures IsLower(c) <==> c in LOWER
    ensures IsUpper(c) <==> c in UPPER
  {
    Listed(DIGITS, '0', c);
    Listed(LOWER, 'a', c);
    Listed(UPPER, 'A', c);
  }

  lemma Listed(run: string, first: char, c: char)
    requires |run| > 0 && first as int + |run| <= 0xD800
    requires forall i :: 0 <= i < |run| ==> run[i] as int == first as int + i
    ensures c in run <==> first as int <= c as int < first as int + |run|
  {
    if first as int <= c as int < first as int + |run| {
      assert run[c as int - first as int] == c;
    }
  }

  /** A suffix looks random when it is six or more letters and digits and is no word in one case. */
  lemma LooksRandomIff(s: string)
    ensures LooksRandom(s) <==>
            && |s| >= 6
            && (forall c :: c in s ==> c in DIGITS || c in LOWER || c in UPPER)
            && (exists c :: c in s && c !in LOWER)
            && (exists c :: c in s && c !in UPPER)
  {
    forall c ensures IsAlnum(c) <==> c in DIGITS || c in LOWER || c in UPPER {
      ClassesAre(c);
    }
    forall c ensures (IsLower(c) <==> c in LOWER) && (IsUpper(c) <==> c in UPPER) {
      ClassesAre(c);
    }
  }

  /** A newline before the end of the stem hides the digits: without a separator the name then has no
      key. */
  lemma NewlineHidesDigits(stem: string, digits: string)
    requires stem != "" && !IsDigit(stem[|stem| - 1]) && AllDigits(digits)
    requires '\n' in stem[..|stem| - 1] && forall i :: 0 <= i < |stem| ==> !IsSeparator(stem[i])
    ensures KeyOf(stem + digits) == None
  {
    var name := stem + digits;
    DigitsAfter(stem, digits);
    assert name[..|name| - |digits| - 1] == stem[..|stem| - 1];
    forall i | 0 <= i < |name| ensures !IsSeparator(name[i]) {
      assert name[i] == if i < |stem| then stem[i] else digits[i - |stem|];
    }
  }

  // ---- Paths ----

  /** Absolute, with no slash at the end unless it is the top directory. */
  predicate CleanRoot(root: string) {
    root != "" && root[0] == '/' && (root[|root| - 1] == '/' ==> root == "/")
  }

  function Join(dir: string, name: string): string {
    if dir == "/" then dir + name else dir + "/" + name
  }

  /** Where the last slash is, or -1. */
  function LastSlash(path: string): (i: int)
    ensures -1 <= i < |path| && (i >= 0 ==> path[i] == '/')
    ensures forall j :: i < j < |path| ==> path[j] != '/'
  {
    if path == "" then -1 else if path[|path| - 1] == '/' then |path| - 1 else LastSlash(path[..|path| - 1])
  }

  function Base(path: string): string {
    if path == "" then "." else if path == "/" then path else path[LastSlash(path) + 1..]
  }

  function Dir(path: string): string {
    var i := LastSlash(path);
    if i < 0 then "." else if i == 0 then "/" else path[..i]
  }

  lemma {:induction false} SlashBefore(head: string, name: string)
    requires '/' !in name && (head == "" || head[|head| - 1] == '/')
    ensures LastSlash(head + name) == |head| - 1
  {
    var s, n := head + name, |name| - 1;
    if name == "" {
      assert s == head;
    } else {
      assert s[|s| - 1] == name[n];
      assert s[..|s| - 1] == head + name[..n];
      SlashBefore(head, name[..n]);
    }
  }

  lemma JoinParts(root: string, name: string)
    requires CleanRoot(root) && name != "" && '/' !in name
    ensures Base(Join(root, name)) == name && Dir(Join(root, name)) == root
  {
    var head := if root == "/" then root else root + "/";
    assert Join(root, name) == head + name;
    SlashBefore(head, name);
    assert (head + name)[|head|..] == name;
    if root != "/" {
      assert (head + name)[..|root|] == root;
    }
  }

  // ---- Handles ----

  /** The path a family is reported under. */
  function Handle(p: Place): string {
    Join(p.root, p.key.prefix + p.key.sep + "*")
  }

  function ParseHandle(handle: string): Option<Place> {
    var base := Base(handle);
    if |base| < 2 || base[|base| - 1] != '*' then None
    else
      var stem := base[..|base| - 1];
      var n := |stem| - 1;
      var key := if IsSeparator(stem[n]) then Key(stem[..n], stem[n..]) else Key(stem, "");
      if key.prefix == "" then None else Some(Place(Dir(handle), key))
  }

  /** A handle is what one would type to name the family. */
  lemma HandleIs(p: Place)
    ensures p.root != "/" ==> Handle(p) == p.root + "/" + p.key.prefix + p.key.sep + "*"
    ensures p.root == "/" ==> Handle(p) == "/" + p.key.prefix + p.key.sep + "*"
  {
    assert p.root + "/" + p.key.prefix + p.key.sep + "*" == p.root + "/" + (p.key.prefix + p.key.sep + "*");
    assert "/" + p.key.prefix + p.key.sep + "*" == "/" + (p.key.prefix + p.key.sep + "*");
  }

  /** A path reads as a handle exactly when its last part ends in a star, with something before it that
      is not one separator. */
  lemma ParsesIff(handle: string)
    ensures ParseHandle(handle).Some? <==>
            var base := Base(handle); |base| >= 2 && base[|base| - 1] == '*' && !(|base| == 2 && base[0] in "-_.")
  {
    hide Base;
    var base := Base(handle);
    if |base| >= 2 {
      ClassesAre(base[|base| - 2]);
    }
  }

  lemma HandleParts(p: Place)
    requires CleanRoot(p.root) && '/' !in Stem(p.key)
    ensures Base(Handle(p)) == Stem(p.key) + "*" && Dir(Handle(p)) == p.root
  {
    assert p.key.prefix + p.key.sep + "*" == Stem(p.key) + "*";
    JoinParts(p.root, Stem(p.key) + "*");
  }

  lemma ParsedStem(p: Place)
    requires CleanRoot(p.root) && '/' !in Stem(p.key) && Normal(p.key)
    ensures ParseHandle(Handle(p)) == if Lone(p.key) then None else Some(p)
  {
    HandleParts(p);
    var k, stem := p.key, Stem(p.key);
    assert (stem + "*")[..|stem|] == stem;
    if k.sep != "" {
      assert stem[..|stem| - 1] == k.prefix && stem[|stem| - 1..] == k.sep;
    } else {
      assert stem == k.prefix;
      assert |stem| == 1 && IsSeparator(stem[0]) ==> stem[..0] == "";
    }
  }

  /** A lone separator is all that comes before the digits. */
  predicate SeparatorThenDigits(name: string) {
    |name| > 6 && IsSeparator(name[0]) && AllDigits(name[1..])
  }

  lemma LoneIff(name: string)
    requires KeyOf(name).Some?
    ensures Lone(KeyOf(name).value) <==> SeparatorThenDigits(name)
  {
    if SeparatorThenDigits(name) {
      assert name == name[..1] + name[1..];
      assert '\n' !in name[..1][..0];
      DigitSiblings(name[..1], name[1..]);
    }
    if Lone(KeyOf(name).value) {
      KeySplits(name);
      var k := KeyOf(name).value;
      assert Stem(k) == k.prefix;
      assert name[0] == k.prefix[0];
    }
  }

  /** Reading back the handle printed for the family of any name gives the same root and key, unless
      the name is one separator and digits: then the handle is refused. */
  lemma HandleRoundTrip(root: string, name: string)
    requires CleanRoot(root) && '/' !in name && KeyOf(name).Some?
    ensures var p := Place(root, KeyOf(name).value);
            && (ParseHandle(Handle(p)) == Some(p) <==> !SeparatorThenDigits(name))
            && (SeparatorThenDigits(name) ==> ParseHandle(Handle(p)) == None)
  {
    KeySplits(name);
    LoneIff(name);
    var p := Place(root, KeyOf(name).value);
    forall i | 0 <= i < |Stem(p.key)| ensures Stem(p.key)[i] != '/' {
      assert Stem(p.key)[i] == name[i];
    }
    ParsedStem(p);
  }

  /** Different families of one root have different handles. */
  lemma HandlesDiffer(root: string, a: Key, b: Key)
    requires Normal(a) && Normal(b) && Handle(Place(root, a)) == Handle(Place(root, b))
    ensures a == b
  {
    var head := if root == "/" then root else root + "/";
    assert Handle(Place(root, a)) == head + Stem(a) + "*";
    assert Handle(Place(root, b)) == head + Stem(b) + "*";
    assert (head + Stem(a) + "*")[|head|..|head| + |Stem(a)|] == Stem(a);
    assert (head + Stem(b) + "*")[|head|..|head| + |Stem(b)|] == Stem(b);
    assert Stem(a) == Stem(b);
    SameStem(a, b);
  }

  lemma SameStem(a: Key, b: Key)
    requires Normal(a) && Normal(b) && Stem(a) == Stem(b)
    ensures a == b
  {
    var s, n := Stem(a), |Stem(a)| - 1;
    assert a.sep != "" ==> a.prefix == s[..n] && a.sep == s[n..];
    assert b.sep != "" ==> b.prefix == s[..n] && b.sep == s[n..];
    assert a.sep == "" ==> a.prefix == s;
    assert b.sep == "" ==> b.prefix == s;
  }
}
