/**
 * The state of a `SevenZip` builder and the fluent setters that change it.
 * The source mutates one object and returns `$this`; here every setter
 * returns the updated value instead.
 */
module State {
  import opened Php
  import opened Outcomes

  /** The three command verbs the class names. */
  const CommandAdd: string := "a"
  const CommandExtract: string := "e"
  const CommandExtractWithPaths: string := "x"

  /** Default self-extracting stub shipped next to the executable. */
  const SfxForInstallers: string := "7zSD.sfx"

  const SevenZipExecutable: string := "7z.exe"

  /** An option's value: `null` (a bare flag), one string, or a PHP list of strings. */
  datatype Value = NoValue | One(s: string) | Many(items: seq<string>)

  /** One slot of the `$options` array: its (normalised) key and its value. */
  datatype Entry = Entry(key: Key, value: Value)

  /**
   * The builder's fields. `null` in the source is the empty string here;
   * `options` lists the PHP array's entries in its iteration (insertion) order.
   */
  datatype SevenZip = SevenZip(
    pathToBinary: string,
    command: string,
    options: seq<Entry>,
    sfxName: string,
    outputFile: string,
    inputFiles: seq<string>)

  /** Every field a run clears is in its initial, empty state. */
  predicate Blank(b: SevenZip) {
    && b.command == ""
    && b.options == []
    && b.sfxName == ""
    && b.outputFile == ""
    && b.inputFiles == []
  }

  /** A freshly constructed builder; the binary directory is fixed at construction. */
  function New(pathToBinary: string): (r: SevenZip)
    ensures Blank(r) && r.pathToBinary == pathToBinary
  {
    SevenZip(pathToBinary, "", [], "", "", [])
  }

  /** A PHP array never holds two entries under the same key. */
  predicate DistinctKeys(es: seq<Entry>) {
    forall i, j | 0 <= i < j < |es| :: es[i].key != es[j].key
  }

  predicate Valid(b: SevenZip) {
    DistinctKeys(b.options)
  }

  function Keys(es: seq<Entry>): set<Key> {
    set i | 0 <= i < |es| :: es[i].key
  }

  lemma KeysCons(e: Entry, es: seq<Entry>)
    ensures Keys([e] + es) == {e.key} + Keys(es)
  {
    var s := [e] + es;
    forall x | x in Keys(s) ensures x in {e.key} + Keys(es) {
      var i :| 0 <= i < |s| && s[i].key == x;
      if i > 0 {
        assert es[i - 1].key == x;
      }
    }
    forall x | x in Keys(es) ensures x in Keys(s) {
      var i :| 0 <= i < |es| && es[i].key == x;
      assert s[i + 1].key == x;
    }
    assert s[0].key == e.key;
  }

  /** `$array[$k]` read back: the value stored under `k`, if any. */
  function Lookup(es: seq<Entry>, k: Key): (r: Option<Value>)
    ensures r.Some? <==> k in Keys(es)
    ensures r.Some? ==> Entry(k, r.value) in es
    decreases |es|
  {
    if es == [] then None
    else
      KeysCons(es[0], es[1..]);
      assert [es[0]] + es[1..] == es;
      if es[0].key == k then Some(es[0].value)
      else Lookup(es[1..], k)
  }

  /**
   * `$array[$k] = $v`: overwrite in place when `k` is present, otherwise
   * append a new entry at the end.
   */
  function Put(es: seq<Entry>, k: Key, v: Value): (r: seq<Entry>)
    requires DistinctKeys(es)
    ensures DistinctKeys(r)
    ensures Keys(r) == Keys(es) + {k}
    ensures k !in Keys(es) ==> r == es + [Entry(k, v)]
    decreases |es|
  {
    if es == [] then
      KeysCons(Entry(k, v), []);
      assert [Entry(k, v)] + [] == [Entry(k, v)];
      [Entry(k, v)]
    else
      KeysCons(es[0], es[1..]);
      assert [es[0]] + es[1..] == es;
      if es[0].key == k then
        KeysCons(Entry(k, v), es[1..]);
        [Entry(k, v)] + es[1..]
      else
        var tail := Put(es[1..], k, v);
        KeysCons(es[0], tail);
        [es[0]] + tail
  }

  /** Storing under the key found at position i replaces that entry only, where it stands. */
  lemma {:induction false} PutInPlace(es: seq<Entry>, k: Key, v: Value, i: nat)
    requires DistinctKeys(es) && i < |es| && es[i].key == k
    ensures Put(es, k, v) == es[..i] + [Entry(k, v)] + es[i + 1..]
    decreases |es|
  {
    if es[0].key != k {
      var tail := es[1..];
      assert i > 0 && tail[i - 1] == es[i];
      assert DistinctKeys(tail) by {
        forall a, c | 0 <= a < c < |tail| ensures tail[a].key != tail[c].key {
          assert tail[a] == es[a + 1] && tail[c] == es[c + 1];
        }
      }
      assert Put(es, k, v) == [es[0]] + Put(tail, k, v);
      PutInPlace(tail, k, v, i - 1);
      assert tail[..i - 1] == es[1..i];
      assert tail[i..] == es[i + 1..];
      assert [es[0]] + es[1..i] == es[..i];
    } else {
      assert i == 0;
    }
  }

  lemma PutInPlaceAll(es: seq<Entry>, k: Key, v: Value)
    requires DistinctKeys(es)
    ensures forall i | 0 <= i < |es| && es[i].key == k :: Put(es, k, v) == es[..i] + [Entry(k, v)] + es[i + 1..]
  {
    forall i | 0 <= i < |es| && es[i].key == k
      ensures Put(es, k, v) == es[..i] + [Entry(k, v)] + es[i + 1..]
    {
      PutInPlace(es, k, v, i);
    }
  }

  /** After a store, reading the stored key yields the new value and every other key is untouched. */
  lemma {:induction false} LookupPut(es: seq<Entry>, k: Key, v: Value, q: Key)
    requires DistinctKeys(es)
    ensures Lookup(Put(es, k, v), q) == (if q == k then Some(v) else Lookup(es, q))
    decreases |es|
  {
    if es == [] {
      assert Put(es, k, v) == [Entry(k, v)];
    } else if es[0].key == k {
      var r := Put(es, k, v);
      assert r == [Entry(k, v)] + es[1..];
      assert r[1..] == es[1..];
    } else {
      var tail := Put(es[1..], k, v);
      var r := Put(es, k, v);
      assert r == [es[0]] + tail;
      assert r[1..] == tail;
      LookupPut(es[1..], k, v, q);
    }
  }

  function SetCommand(b: SevenZip, command: string): (r: SevenZip)
    ensures r.command == command
    ensures r.(command := b.command) == b
  {
    b.(command := command)
  }

  function SetOutputFile(b: SevenZip, outputFile: string): (r: SevenZip)
    ensures r.outputFile == outputFile
    ensures r.(outputFile := b.outputFile) == b
  {
    b.(outputFile := outputFile)
  }

  function SetSfxName(b: SevenZip, sfxName: string): (r: SevenZip)
    ensures r.sfxName == sfxName
    ensures r.(sfxName := b.sfxName) == b
  {
    b.(sfxName := sfxName)
  }

  /** Input files accumulate: the new one goes last, earlier ones stay as they were. */
  function AddInputFile(b: SevenZip, inputFile: string): (r: SevenZip)
    ensures |r.inputFiles| == |b.inputFiles| + 1
    ensures r.inputFiles[..|b.inputFiles|] == b.inputFiles
    ensures r.inputFiles[|b.inputFiles|] == inputFile
    ensures r.(inputFiles := b.inputFiles) == b
  {
    b.(inputFiles := b.inputFiles + [inputFile])
  }

  /**
   * `addOption($name, $value)`: store under the key PHP derives from the name,
   * replacing an existing value in its original position or appending a new
   * entry last.
   */
  function AddOption(b: SevenZip, name: KeyArg, value: Value): (r: SevenZip)
    requires Valid(b)
    ensures Valid(r)
    ensures Lookup(r.options, ArrayKey(name)) == Some(value)
    ensures forall i | 0 <= i < |b.options| && b.options[i].key == ArrayKey(name) ::
      r.options == b.options[..i] + [Entry(ArrayKey(name), value)] + b.options[i + 1..]
    ensures ArrayKey(name) !in Keys(b.options) ==> r.options == b.options + [Entry(ArrayKey(name), value)]
    ensures r.(options := b.options) == b
  {
    LookupPut(b.options, ArrayKey(name), value, ArrayKey(name));
    PutInPlaceAll(b.options, ArrayKey(name), value);
    b.(options := Put(b.options, ArrayKey(name), value))
  }

  /** `clearParams`: everything but the binary directory goes back to its initial state. */
  function ClearParams(b: SevenZip): (r: SevenZip)
    ensures Blank(r)
    ensures r == New(b.pathToBinary)
  {
    b.(command := "", options := [], sfxName := "", outputFile := "", inputFiles := [])
  }
}
