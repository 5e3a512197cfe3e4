/**
 * How canonical text is spelled (RFC 8259, as Python's `json.dumps` writes it): the order of the keys, the
 * separators, the escapes and the digits, told without the printer's own definitions.
 */
module JsonSpelling {
  import opened JsonValue
  import opened JsonText
  import opened JsonRoundTrip
  import opened Utf8
  import opened Canonical
  import opened Options

  // ----- the order of the keys

  /** `b` differs from `a` first at `k`, and upwards there. */
  predicate DiffersAt(a: string, b: string, k: nat) {
    k < |a| && k < |b| && a[..k] == b[..k] && a[k] < b[k]
  }

  /** `a` is a proper prefix of `b`, or smaller where they first differ. */
  ghost predicate Precedes(a: string, b: string) {
    a < b || exists k: nat :: DiffersAt(a, b, k)
  }

  lemma {:induction false} LessIff(a: string, b: string)
    ensures Less(a, b) <==> Precedes(a, b)
  {
    if a == [] || b == [] {
    } else {
      LessIff(a[1..], b[1..]);
      assert a == [a[0]] + a[1..] && b == [b[0]] + b[1..];
      if Less(a, b) {
        LessPrecedes(a, b);
      } else {
        forall k: nat ensures !DiffersAt(a, b, k) {
          if DiffersAt(a, b, k) && k > 0 {
            assert a[..k][0] == b[..k][0];
            assert a[1..][..k - 1] == a[..k][1..] && b[1..][..k - 1] == b[..k][1..];
            assert DiffersAt(a[1..], b[1..], k - 1);
          }
        }
      }
    }
  }

  lemma LessPrecedes(a: string, b: string)
    requires a != [] && b != [] && Less(a, b)
    requires Less(a[1..], b[1..]) ==> Precedes(a[1..], b[1..])
    ensures Precedes(a, b)
  {
    if a[0] < b[0] {
      assert DiffersAt(a, b, 0);
    } else if a[1..] < b[1..] {
      assert a == [a[0]] + a[1..] && b == [b[0]] + b[1..];
      assert a <= b;
    } else {
      var k: nat :| DiffersAt(a[1..], b[1..], k);
      assert a[..k + 1] == [a[0]] + a[1..][..k] && b[..k + 1] == [b[0]] + b[1..][..k];
      assert DiffersAt(a, b, k + 1);
    }
  }

  /** In every dict, however deep, the keys ascend. */
  ghost predicate Ascending(v: Json) {
    match v
    case Arr(items) => forall i :: 0 <= i < |items| ==> Ascending(items[i])
    case Obj(members) =>
      && (forall i, j :: 0 <= i < j < |members| ==> Precedes(members[i].key, members[j].key))
      && (forall i :: 0 <= i < |members| ==> Ascending(members[i].value))
    case _ => true
  }

  lemma {:induction false} NormAscends(v: Json)
    requires WellFormed(v)
    ensures Ascending(Norm(v))
    decreases v
  {
    hide Less, Sort;
    match v {
      case Arr(items) =>
        forall i | 0 <= i < |items| ensures Ascending(Norm(items[i])) {
          NormAscends(items[i]);
        }
      case Obj(members) =>
        var normal := NormMembers(members);
        assert DistinctKeys(normal);
        SortProperties(normal);
        forall i | 0 <= i < |members| ensures Ascending(normal[i].value) {
          NormAscends(members[i].value);
        }
        SortedAscends(normal);
      case _ =>
    }
  }

  lemma SortedAscends(ms: seq<Member>)
    requires Sorted(Sort(ms)) && forall x :: x in Sort(ms) <==> x in ms
    requires forall i :: 0 <= i < |ms| ==> Ascending(ms[i].value)
    ensures Ascending(Obj(Sort(ms)))
  {
    var sorted := Sort(ms);
    hide Less, Sort, Precedes;
    forall i, j | 0 <= i < j < |sorted| ensures Precedes(sorted[i].key, sorted[j].key) {
      LessIff(sorted[i].key, sorted[j].key);
    }
    forall i | 0 <= i < |sorted| ensures Ascending(sorted[i].value) {
      assert sorted[i] in ms;
    }
  }

  /** Read back, the canonical bytes of a value hold every dict with its keys ascending. */
  lemma KeysAscend(v: Json)
    requires WellFormed(v)
    ensures Read(CanonicalBytes(v)).Some? && Ascending(Read(CanonicalBytes(v)).value)
  {
    hide CanonicalBytes, Read, Norm, Ascending;
    ReadCanonical(v);
    NormAscends(v);
  }

  // ----- separators

  function Join(pieces: seq<string>): string {
    if pieces == [] then ""
    else if |pieces| == 1 then pieces[0]
    else pieces[0] + "," + Join(pieces[1..])
  }

  lemma {:induction false} ItemsSpelled(items: seq<Json>, pieces: seq<string>)
    requires |pieces| == |items| && forall i :: 0 <= i < |items| ==> pieces[i] == Emit(items[i])
    ensures EmitItems(items) == Join(pieces)
  {
    if |items| <= 1 {
    } else {
      ItemsSpelled(items[1..], pieces[1..]);
    }
  }

  lemma {:induction false} MembersSpelled(members: seq<Member>, pieces: seq<string>)
    requires |pieces| == |members|
    requires forall i :: 0 <= i < |members| ==> pieces[i] == Emit(Str(members[i].key)) + ":" + Emit(members[i].value)
    ensures EmitMembers(members) == Join(pieces)
  {
    if |members| <= 1 {
    } else {
      MembersSpelled(members[1..], pieces[1..]);
    }
  }

  /** Literals, brackets, braces, commas and colons, with nothing between them. */
  lemma Punctuation(items: seq<Json>, members: seq<Member>, elements: seq<string>, entries: seq<string>)
    requires |elements| == |items| && forall i :: 0 <= i < |items| ==> elements[i] == Emit(items[i])
    requires |entries| == |members|
    requires forall i :: 0 <= i < |members| ==> entries[i] == Emit(Str(members[i].key)) + ":" + Emit(members[i].value)
    ensures Emit(Null) == "null" && Emit(Bool(true)) == "true" && Emit(Bool(false)) == "false"
    ensures Emit(Arr(items)) == "[" + Join(elements) + "]"
    ensures Emit(Obj(members)) == "{" + Join(entries) + "}"
  {
    ItemsSpelled(items, elements);
    MembersSpelled(members, entries);
  }

  // ----- strings

  function Concat(pieces: seq<string>): string {
    if pieces == [] then "" else pieces[0] + Concat(pieces[1..])
  }

  lemma {:induction false} EscapesSpelled(s: string, pieces: seq<string>)
    requires |pieces| == |s| && forall i :: 0 <= i < |s| ==> pieces[i] == Escape(s[i])
    ensures EscapeAll(s) == Concat(pieces)
  {
    if s == [] {
    } else {
      EscapesSpelled(s[1..], pieces[1..]);
    }
  }

  lemma StringSpelled(s: string, pieces: seq<string>)
    requires |pieces| == |s| && forall i :: 0 <= i < |s| ==> pieces[i] == Escape(s[i])
    ensures Emit(Str(s)) == "\"" + Concat(pieces) + "\""
  {
    EscapesSpelled(s, pieces);
  }

  /**
   * Every character stands for itself but quote, backslash and the control characters: seven have escapes of
   * two characters, the rest are `\u00` and two hexadecimal digits, small letters.
   */
  lemma EscapeTable(c: char)
    ensures c as int >= 32 && c != '"' && c != '\\' ==> Escape(c) == [c]
    ensures Escape('"') == ['\\', '"'] && Escape('\\') == ['\\', '\\']
    ensures Escape('\n') == ['\\', 'n'] && Escape('\r') == ['\\', 'r'] && Escape('\t') == ['\\', 't']
    ensures Escape(8 as char) == ['\\', 'b'] && Escape(12 as char) == ['\\', 'f']
    ensures c as int < 32 && c as int !in {8, 9, 10, 12, 13} ==>
              Escape(c) == ['\\', 'u', '0', '0',
                            "0123456789abcdef"[c as int / 16], "0123456789abcdef"[c as int % 16]]
  {
  }

  // ----- integers

  /** Decimal, no leading zeros, a minus sign where needed. */
  lemma IntegerSpelled(n: int)
    ensures n < 0 ==> Emit(Int(n)) == "-" + Emit(Int(-n))
    ensures 0 <= n < 10 ==> Emit(Int(n)) == ["0123456789"[n]]
    ensures n >= 10 ==> Emit(Int(n)) == Emit(Int(n / 10)) + ["0123456789"[n % 10]]
  {
  }

  // ----- bytes

  /** The bytes of a character, as in the table of section 3 of RFC 3629. */
  lemma Utf8Table(c: char)
    ensures var n, b := c as int, EncodeChar(c);
            if n < 0x80 then b == [n]
            else if n < 0x800 then
              && |b| == 2 && 0xC2 <= b[0] < 0xE0 && 0x80 <= b[1] < 0xC0
              && n == (b[0] as int - 0xC0) * 64 + (b[1] as int - 0x80)
            else if n < 0x10000 then
              && |b| == 3 && 0xE0 <= b[0] < 0xF0 && 0x80 <= b[1] < 0xC0 && 0x80 <= b[2] < 0xC0
              && n == (b[0] as int - 0xE0) * 4096 + (b[1] as int - 0x80) * 64 + (b[2] as int - 0x80)
            else
              && |b| == 4 && 0xF0 <= b[0] < 0xF5 && 0x80 <= b[1] < 0xC0 && 0x80 <= b[2] < 0xC0 && 0x80 <= b[3] < 0xC0
              && n == (b[0] as int - 0xF0) * 262144 + (b[1] as int - 0x80) * 4096 + (b[2] as int - 0x80) * 64
                      + (b[3] as int - 0x80)
  {
    Digits64(c as int);
  }

  lemma {:induction false} BytesSpelled(s: string, pieces: seq<seq<Byte>>)
    requires |pieces| == |s| && forall i :: 0 <= i < |s| ==> pieces[i] == EncodeChar(s[i])
    ensures Encode(s) == Flatten(pieces)
  {
    hide EncodeChar;
    if s == [] {
    } else {
      BytesSpelled(s[1..], pieces[1..]);
    }
  }

  function Flatten(pieces: seq<seq<Byte>>): seq<Byte> {
    if pieces == [] then [] else pieces[0] + Flatten(pieces[1..])
  }

  /** The canonical bytes of a dict: its keys ascending in code-point order. */
  lemma TwoKeys(a: string, x: int, b: string, y: int)
    requires Precedes(a, b)
    ensures var text := "{" + Emit(Str(a)) + ":" + Emit(Int(x)) + "," + Emit(Str(b)) + ":" + Emit(Int(y)) + "}";
            && CanonicalBytes(Obj([Member(a, Int(x)), Member(b, Int(y))])) == Encode(text)
            && CanonicalBytes(Obj([Member(b, Int(y)), Member(a, Int(x))])) == Encode(text)
  {
    LessIff(a, b);
    LessTotal(a, b);
    hide Less, Precedes, Encode, Quoted, IntText;
    var m, n := Member(a, Int(x)), Member(b, Int(y));
    assert NormMembers([m, n]) == [m, n] && NormMembers([n, m]) == [n, m];
    assert Insert(m, []) == [m] && Insert(n, []) == [n];
    assert [m, n][1..] == [n] && [n, m][1..] == [m];
    assert Insert(m, [n]) == [m, n] && Insert(n, [m]) == [m, n];
    assert Sort([n]) == [n] by { assert [n][1..] == []; }
    assert Sort([m]) == [m] by { assert [m][1..] == []; }
    assert Sort([m, n]) == [m, n] && Sort([n, m]) == [m, n];
    assert EmitMembers([m, n]) == EmitMember(m) + [','] + EmitMembers([n]);
    assert EmitMembers([n]) == EmitMember(n);
    assert Emit(Obj([m, n]))
        == "{" + Emit(Str(a)) + ":" + Emit(Int(x)) + "," + Emit(Str(b)) + ":" + Emit(Int(y)) + "}";
  }
}
