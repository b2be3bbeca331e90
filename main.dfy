/** The command line helper that turns a comma separated option such as
    `--leds=10,11,12,13` into pin numbers. */
module Cli {
  import opened Common
  import opened Text

  const U64_BOUND: nat := 0x1_0000_0000_0000_0000

  /** The number a field contributes: its value when it parses as `u64`. */
  function Field(part: string): seq<u64> {
    match ParseUnsigned(part, U64_BOUND)
    case Some(n) => [n]
    case None => []
  }

  /** The values of the fields that parse as `u64`, in field order; the
      others are dropped without an error. */
  function Parsed(parts: seq<string>): (r: seq<u64>)
    ensures |r| <= |parts|
  {
    if parts == [] then [] else Parsed(parts[..|parts| - 1]) + Field(parts[|parts| - 1])
  }

  /** `cup_comma`. */
  method CupComma(input: string) returns (numbers: seq<u64>)
    ensures numbers == Parsed(Split(input, ','))
    ensures |numbers| <= Count(input, ',') + 1
  {
    var parts := Split(input, ',');
    numbers := [];
    for i := 0 to |parts|
      invariant numbers == Parsed(parts[..i])
    {
      match ParseUnsigned(parts[i], U64_BOUND) {
        case Some(n) => numbers := numbers + [n];
        case None =>
      }
      assert parts[..i + 1][..i] == parts[..i];
    }
    assert parts[..|parts|] == parts;
  }

  /** Parsing distributes over concatenation of field lists. */
  lemma {:induction false} ParsedAppend(a: seq<string>, b: seq<string>)
    ensures Parsed(a + b) == Parsed(a) + Parsed(b)
    decreases |b|
  {
    if b == [] {
      assert a + b == a;
    } else {
      var b' := b[..|b| - 1];
      assert (a + b)[..|a + b| - 1] == a + b';
      ParsedAppend(a, b');
    }
  }

  /** Each field is kept exactly when it parses, at its own position: what
      comes before it is what its predecessors give, and what comes after
      it is what its successors give. */
  lemma FieldAt(parts: seq<string>, j: nat)
    requires j < |parts|
    ensures Parsed(parts) == Parsed(parts[..j]) + Field(parts[j]) + Parsed(parts[j + 1..])
    ensures ParseUnsigned(parts[j], U64_BOUND).Some? ==>
              Field(parts[j]) == [ParseUnsigned(parts[j], U64_BOUND).value]
    ensures ParseUnsigned(parts[j], U64_BOUND).None? ==> Field(parts[j]) == []
  {
    ParsedSplit(parts, j);
  }

  /** `Parsed` at the position of one field. */
  lemma ParsedSplit(parts: seq<string>, j: nat)
    requires j < |parts|
    ensures Parsed(parts) == Parsed(parts[..j]) + Field(parts[j]) + Parsed(parts[j + 1..])
  {
    var head := parts[..j + 1];
    assert parts == head + parts[j + 1..];
    ParsedAppend(head, parts[j + 1..]);
    assert head[..|head| - 1] == parts[..j] && head[|head| - 1] == parts[j];
    assert Parsed(head) == Parsed(parts[..j]) + Field(parts[j]);
  }

  /** Every number returned is the value of some field. */
  lemma {:induction false} ParsedSound(parts: seq<string>)
    ensures forall x :: x in Parsed(parts) ==>
              exists j :: 0 <= j < |parts| && ParseUnsigned(parts[j], U64_BOUND) == Some(x)
  {
    if parts != [] {
      var init := parts[..|parts| - 1];
      ParsedSound(init);
      forall x | x in Parsed(parts)
        ensures exists j :: 0 <= j < |parts| && ParseUnsigned(parts[j], U64_BOUND) == Some(x)
      {
        if x in Parsed(init) {
          var j :| 0 <= j < |init| && ParseUnsigned(init[j], U64_BOUND) == Some(x);
          assert parts[j] == init[j];
        } else {
          assert ParseUnsigned(parts[|parts| - 1], U64_BOUND) == Some(x);
        }
      }
    }
  }

  /** Fields that all parse are all kept, in order. */
  lemma {:induction false} ParsedAll(parts: seq<string>)
    requires forall i :: 0 <= i < |parts| ==> ParseUnsigned(parts[i], U64_BOUND).Some?
    ensures |Parsed(parts)| == |parts|
    ensures forall i :: 0 <= i < |parts| ==> Parsed(parts)[i] == ParseUnsigned(parts[i], U64_BOUND).value
  {
    if parts != [] {
      var init := parts[..|parts| - 1];
      var last := parts[|parts| - 1];
      ParsedAll(init);
      var n := ParseUnsigned(last, U64_BOUND).value;
      assert Field(last) == [n];
      assert Parsed(parts) == Parsed(init) + [n];
      forall i | 0 <= i < |parts|
        ensures Parsed(parts)[i] == ParseUnsigned(parts[i], U64_BOUND).value
      {
        if i < |init| {
          assert parts[i] == init[i];
        }
      }
    }
  }

  /** The decimal forms of a list of numbers. */
  function Decimals(ns: seq<u64>): (r: seq<string>)
    ensures |r| == |ns|
  {
    seq(|ns|, i requires 0 <= i < |ns| => DecimalString(ns[i]))
  }

  /** Writing numbers with `{}` and joining them with commas is undone by
      `cup_comma`, the empty list included. */
  lemma FormatThenParse(ns: seq<u64>)
    ensures Parsed(Split(Join(Decimals(ns), ','), ',')) == ns
  {
    var ds := Decimals(ns);
    if ns == [] {
      assert Split(Join(ds, ','), ',') == [""];
    } else {
      forall i | 0 <= i < |ds| ensures ',' !in ds[i] {
        assert AllDigits(ds[i]);
      }
      SplitJoin(ds, ',');
      forall i | 0 <= i < |ds| ensures ParseUnsigned(ds[i], U64_BOUND).Some?
        && ParseUnsigned(ds[i], U64_BOUND).value == ns[i]
      {
        ParseDecimal(ns[i], U64_BOUND);
      }
      ParsedAll(ds);
    }
  }

  /** The default "0" gives pin 0. */
  lemma DefaultOption()
    ensures Parsed(Split("0", ',')) == [0]
  {
    SplitNone("0", ',');
    ParseDecimal(0, U64_BOUND);
    assert DecimalString(0) == "0";
    assert Field("0") == [0];
    assert ["0"][..0] == [];
  }

  /** A field with a space before its digits does not parse and is
      dropped. */
  lemma SpacedField()
    ensures Parsed(Split("10, 11", ',')) == [10]
  {
    SplitTwo("10", " 11");
    assert "10" + [','] + " 11" == "10, 11";
    assert Field("10") == [10] by {
      assert "10"[..1] == "1" && "1"[..0] == "";
      assert DigitsValue("10") == 10;
    }
    assert Field(" 11") == [] by {
      assert !IsDigit(" 11"[0]);
    }
    ParsedPair("10", " 11");
  }

  /** Two separator-free fields around one comma split into those fields. */
  lemma SplitTwo(a: string, b: string)
    requires ',' !in a && ',' !in b
    ensures Split(a + [','] + b, ',') == [a, b]
  {
    SplitAfter(a, ',', b);
    SplitNone(b, ',');
  }

  /** The numbers of two fields are those of the first, then the second. */
  lemma ParsedPair(a: string, b: string)
    ensures Parsed([a, b]) == Field(a) + Field(b)
  {
    assert [a, b][..1] == [a] && [a][..0] == [];
  }
}
