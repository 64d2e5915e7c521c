/** A relative path as the kernel is given it: components joined by slashes. */
module PathText {
  import opened Paths

  function Text(path: Path): seq<byte>
    requires path != []
  {
    if |path| == 1 then path[0] else path[0] + [0x2f] + Text(path[1..])
  }

  /** The names between slashes. */
  function Names(text: seq<byte>): (names: Path)
    ensures names != []
  {
    if text == [] then [[]]
    else
      var later := Names(text[1..]);
      if text[0] == 0x2f then [[]] + later else [[text[0]] + later[0]] + later[1..]
  }

  /** The byte total that bounds a scanned path counts the separators too. */
  lemma {:induction false} TextLength(path: Path)
    requires path != []
    ensures |Text(path)| == ByteCount(path) + |path| - 1
  {
    if |path| > 1 {
      TextLength(path[1..]);
    } else {
      assert path[1..] == [];
    }
  }

  lemma {:induction false} NamesPlain(text: seq<byte>)
    ensures forall n :: n in Names(text) ==> 0x2f !in n
  {
    if text != [] {
      NamesPlain(text[1..]);
      var later := Names(text[1..]);
      assert later[0] in later && forall n :: n in later[1..] ==> n in later;
    }
  }

  /** A name without a slash is read back in front of whatever follows it. */
  lemma {:induction false} NameThen(name: Name, text: seq<byte>)
    requires 0x2f !in name
    ensures Names(name + text) == [name + Names(text)[0]] + Names(text)[1..]
  {
    if name == [] {
      var later := Names(text);
      assert name + text == text && name + later[0] == later[0] && [later[0]] + later[1..] == later;
    } else {
      assert (name + text)[1..] == name[1..] + text;
      NameThen(name[1..], text);
      assert [name[0]] + (name[1..] + Names(text)[0]) == name + Names(text)[0];
    }
  }

  lemma {:induction false} NamesOfText(path: Path)
    requires path != [] && forall n :: n in path ==> 0x2f !in n
    ensures Names(Text(path)) == path
  {
    if |path| == 1 {
      NameThen(path[0], []);
      assert path[0] + [] == path[0];
    } else {
      var rest := [0x2f] + Text(path[1..]);
      assert rest[1..] == Text(path[1..]) && Text(path) == path[0] + rest;
      NameThen(path[0], rest);
      NamesOfText(path[1..]);
      assert Names(rest) == [[]] + path[1..] && path[0] + [] == path[0];
    }
  }

  lemma {:induction false} TextHolds(path: Path, b: byte)
    requires path != [] && b != 0x2f
    ensures b in Text(path) <==> exists n :: n in path && b in n
  {
    if |path| > 1 {
      TextHolds(path[1..], b);
      assert path == [path[0]] + path[1..];
    }
  }

  /**
   * A path is valid exactly when the kernel reads its text as these very components, none of them
   * empty or a dot entry, and without a NUL to end it early.
   */
  lemma ValidPathIff(path: Path)
    ensures ValidPath(path) <==>
            && path != [] && Names(Text(path)) == path && 0 !in Text(path)
            && forall n :: n in path ==> n != [] && !Spells(n, ".") && !Spells(n, "..")
  {
    assert Spells([DOT], ".") && Spells([DOT, DOT], "..");
    if path != [] {
      TextHolds(path, 0);
      NamesPlain(Text(path));
      if forall n :: n in path ==> 0x2f !in n { NamesOfText(path); }
      forall n | n in path ensures ValidName(n) <==> n != [] && !Spells(n, ".") && !Spells(n, "..") && 0x2f !in n && 0 !in n {
        if n == [DOT] { assert Spells(n, "."); }
        if Spells(n, ".") { assert n == [DOT]; }
        if Spells(n, "..") { assert n == [DOT, DOT]; }
      }
    }
  }
}
