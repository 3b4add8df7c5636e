/** The extension rule shared by the upload, schedule, trigger and pull code:
    the lower-cased suffix from the last '.', or a caller-chosen default when
    the name has no dot. */
module FileNames {
  import opened JavaLang

  function FileExtension(name: string, noDot: string): (r: string)
    ensures '.' !in name ==> r == noDot
    ensures '.' in name ==>
      1 <= |r| <= |name| && r[0] == '.' && '.' !in r[1..]
      && r == ToLower(name[|name| - |r|..])
  {
    if '.' in name then
      var i := LastIndexOf(name, '.');
      assert i >= 0 by {
        var k :| 0 <= k < |name| && name[k] == '.';
      }
      var r := ToLower(name[i..]);
      assert '.' !in r[1..] by {
        forall j | 1 <= j < |r|
          ensures r[j] != '.'
        {
          assert r[j] == LowerChar(name[i + j]) && name[i + j] != '.';
        }
      }
      r
    else noDot
  }

  /** Only ".csv" and ".json" are accepted */
  predicate IsAccepted(ext: string) {
    ext == ".csv" || ext == ".json"
  }

  /** A name without a dot passes as CSV where the default is ".csv" and fails
      where it is "" */
  lemma NoDotDefaults()
    ensures IsAccepted(FileExtension("orders", ".csv"))
    ensures !IsAccepted(FileExtension("orders", ""))
  {
    assert '.' !in "orders" by {
      assert "orders" == ['o', 'r', 'd', 'e', 'r', 's'];
    }
  }

  /** With a dot the case of the suffix does not matter */
  lemma UpperCaseSuffix()
    ensures FileExtension("a.CSV", "") == ".csv"
  {
    assert LastIndexOf("a.CSV", '.') == 1 by {
      assert "a.CSV"[..4] == "a.CS" && "a.CS"[..3] == "a.C" && "a.C"[..2] == "a.";
    }
    assert "a.CSV"[1..] == ".CSV";
    assert ToLower(".CSV") == ".csv";
  }

  /** Only the part after the last dot counts */
  lemma LastDotCounts()
    ensures FileExtension("a.csv.txt", ".csv") == ".txt"
  {
    assert LastIndexOf("a.csv.txt", '.') == 5 by {
      assert "a.csv.txt"[..8] == "a.csv.tx" && "a.csv.tx"[..7] == "a.csv.t" && "a.csv.t"[..6] == "a.csv.";
    }
    assert "a.csv.txt"[5..] == ".txt";
    assert ToLower(".txt") == ".txt";
  }
}
