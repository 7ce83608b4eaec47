/** Fields between separators, and comparison of text without regard to case. */
module Text {

  function Join(fs: seq<string>, sep: char): string {
    if fs == [] then "" else if |fs| == 1 then fs[0] else fs[0] + [sep] + Join(fs[1..], sep)
  }

  function Split(s: string, sep: char): (r: seq<string>)
    ensures r != []
  {
    if s == "" then [""]
    else
      var r := Split(s[1..], sep);
      if s[0] == sep then [""] + r else [[s[0]] + r[0]] + r[1..]
  }

  lemma SplitField(f: string, s: string, sep: char)
    requires sep !in f
    ensures Split(f + [sep] + s, sep) == [f] + Split(s, sep)
  {
    var t := f + [sep] + s;
    if f == "" {
      assert t[1..] == s;
    } else {
      assert t[1..] == f[1..] + [sep] + s;
      SplitField(f[1..], s, sep);
      assert [f[0]] + f[1..] == f;
    }
  }

  lemma SplitOne(f: string, sep: char)
    requires sep !in f
    ensures Split(f, sep) == [f]
  {
    if f != "" {
      SplitOne(f[1..], sep);
      assert [f[0]] + f[1..] == f;
    }
  }

  lemma {:induction false} SplitJoin(fs: seq<string>, sep: char)
    requires fs != [] && forall i :: 0 <= i < |fs| ==> sep !in fs[i]
    ensures Split(Join(fs, sep), sep) == fs
  {
    SplitOne(fs[0], sep);
    if |fs| > 1 {
      SplitJoin(fs[1..], sep);
      SplitField(fs[0], Join(fs[1..], sep), sep);
    }
  }

  lemma JoinSnoc(fs: seq<string>, f: string, sep: char)
    ensures Join(fs + [f], sep) == (if fs == [] then f else Join(fs, sep) + [sep] + f)
  {
    if |fs| >= 2 {
      assert (fs + [f])[1..] == fs[1..] + [f];
      JoinSnoc(fs[1..], f, sep);
    } else if |fs| == 1 {
      assert (fs + [f])[1..] == [f];
    }
  }

  function Lower(c: char): char {
    if 'A' <= c <= 'Z' then c - 'A' + 'a' else c
  }

  /** osip_strcasecmp (a, b) == 0 */
  predicate EqualNoCase(a: string, b: string) {
    |a| == |b| && forall i :: 0 <= i < |a| ==> Lower(a[i]) == Lower(b[i])
  }
}
