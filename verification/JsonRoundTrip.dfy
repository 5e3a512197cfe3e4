/** The parser undoes the printer, so equal bytes come from equal values. */
module JsonRoundTrip {
  import opened JsonValue
  import opened JsonText
  import opened Options

  /** Every float token in the value is one. */
  predicate Printable(v: Json) {
    match v
    case Float(token) => FloatToken(token)
    case Arr(items) => forall i :: 0 <= i < |items| ==> Printable(items[i])
    case Obj(members) => forall i :: 0 <= i < |members| ==> Printable(members[i].value)
    case _ => true
  }

  lemma EmitHead(v: Json)
    requires Printable(v)
    ensures Emit(v) != [] && Emit(v)[0] != ']' && Emit(v)[0] != '}'
  {
    if v.Int? {
      IntRead(v.n);
    }
  }

  lemma ScalarRoundTrip(v: Json, tail: string)
    requires v.Null? || v.Bool? || v.Str?
    ensures ParseValue(Emit(v) + tail) == Some((v, tail))
  {
    var text := Emit(v) + tail;
    match v {
      case Null => assert text[4..] == tail && "null" <= text;
      case Bool(b) =>
        if b {
          assert text[4..] == tail && "true" <= text;
        } else {
          assert text[5..] == tail && "false" <= text;
        }
      case Str(s) =>
        ReadQuoted(s, tail);
        assert text[1..] == EscapeAll(s) + [QUOTE] + tail;
    }
  }

  lemma NumberRoundTrip(v: Json, tail: string)
    requires (v.Int? || (v.Float? && FloatToken(v.token))) && Clean(tail)
    ensures ParseValue(Emit(v) + tail) == Some((v, tail))
  {
    hide Span, NumberChar, Fractional;
    var t := Emit(v);
    NumberText(v);
    SpanOf(t, tail);
    assert (t + tail)[..|t|] == t && (t + tail)[|t|..] == tail;
    assert (t + tail)[0] == t[0];
  }

  lemma NumberText(v: Json)
    requires v.Int? || (v.Float? && FloatToken(v.token))
    ensures var t := Emit(v);
            && t != [] && ('0' <= t[0] <= '9' || t[0] == '-')
            && (forall i :: 0 <= i < |t| ==> NumberChar(t[i]))
            && Number(t) == v
  {
    if v.Int? {
      IntRead(v.n);
    }
  }

  lemma {:induction false} ValueRoundTrip(v: Json, tail: string)
    requires Printable(v) && Clean(tail)
    ensures ParseValue(Emit(v) + tail) == Some((v, tail))
    decreases v, 0
  {
    match v {
      case Int(_) => NumberRoundTrip(v, tail);
      case Float(_) => NumberRoundTrip(v, tail);
      case Arr(items) => ArrayRoundTrip(items, tail);
      case Obj(members) => ObjectRoundTrip(members, tail);
      case _ => ScalarRoundTrip(v, tail);
    }
  }

  lemma {:induction false} ArrayRoundTrip(items: seq<Json>, tail: string)
    requires forall i :: 0 <= i < |items| ==> Printable(items[i])
    ensures ParseValue(Emit(Arr(items)) + tail) == Some((Arr(items), tail))
    decreases items, 1
  {
    hide EmitItems, ParseItems, Printable;
    var text := Emit(Arr(items)) + tail;
    if items == [] {
      EmptyItems();
      assert text == ['[', ']'] + tail;
      assert text[2..] == tail;
    } else {
      ItemsRoundTrip(items, tail);
      ItemsHead(items);
      assert text[1..] == EmitItems(items) + [']'] + tail;
    }
  }

  lemma EmptyItems()
    ensures EmitItems([]) == [] && EmitMembers([]) == []
  {
  }

  lemma ItemsHead(items: seq<Json>)
    requires items != [] && Printable(items[0])
    ensures EmitItems(items) != [] && EmitItems(items)[0] != ']'
  {
    EmitHead(items[0]);
  }

  lemma {:induction false} ItemsRoundTrip(items: seq<Json>, tail: string)
    requires items != [] && forall i :: 0 <= i < |items| ==> Printable(items[i])
    ensures ParseItems(EmitItems(items) + [']'] + tail) == Some((items, tail))
    decreases items, 0
  {
    hide Emit, ParseValue, Printable;
    var text := EmitItems(items) + [']'] + tail;
    if |items| == 1 {
      assert text == Emit(items[0]) + ([']'] + tail);
      ValueRoundTrip(items[0], [']'] + tail);
      assert ([']'] + tail)[1..] == tail;
      assert items == [items[0]];
    } else {
      var rest := EmitItems(items[1..]) + [']'] + tail;
      assert text == Emit(items[0]) + ([','] + rest);
      ValueRoundTrip(items[0], [','] + rest);
      assert ([','] + rest)[1..] == rest;
      ItemsRoundTrip(items[1..], tail);
      assert items == [items[0]] + items[1..];
    }
  }

  lemma {:induction false} ObjectRoundTrip(members: seq<Member>, tail: string)
    requires forall i :: 0 <= i < |members| ==> Printable(members[i].value)
    ensures ParseValue(Emit(Obj(members)) + tail) == Some((Obj(members), tail))
    decreases members, 2
  {
    hide EmitMembers, ParseMembers, Printable;
    var text := Emit(Obj(members)) + tail;
    if members == [] {
      EmptyItems();
      assert text == ['{', '}'] + tail;
      assert text[2..] == tail;
    } else {
      MembersRoundTrip(members, tail);
      MembersHead(members);
      assert text[1..] == EmitMembers(members) + ['}'] + tail;
    }
  }

  lemma MembersHead(members: seq<Member>)
    requires members != []
    ensures EmitMembers(members) != [] && EmitMembers(members)[0] == QUOTE
  {
  }

  lemma {:induction false} MemberRoundTrip(m: Member, tail: string)
    requires Printable(m.value) && Clean(tail)
    ensures ParseMember(EmitMember(m) + tail) == Some((m, tail))
    decreases m, 0
  {
    hide Emit, ParseValue, ReadString, EscapeAll, Printable;
    var text := EmitMember(m) + tail;
    var value := Emit(m.value) + tail;
    assert text[1..] == EscapeAll(m.key) + [QUOTE] + ([':'] + value);
    ReadQuoted(m.key, [':'] + value);
    assert ([':'] + value)[1..] == value;
    ValueRoundTrip(m.value, tail);
  }

  lemma {:induction false} MembersRoundTrip(members: seq<Member>, tail: string)
    requires members != [] && forall i :: 0 <= i < |members| ==> Printable(members[i].value)
    ensures ParseMembers(EmitMembers(members) + ['}'] + tail) == Some((members, tail))
    decreases members, 1
  {
    hide EmitMember, ParseMember, Printable;
    var text := EmitMembers(members) + ['}'] + tail;
    if |members| == 1 {
      assert text == EmitMember(members[0]) + (['}'] + tail);
      MemberRoundTrip(members[0], ['}'] + tail);
      assert (['}'] + tail)[1..] == tail;
      assert members == [members[0]];
    } else {
      var rest := EmitMembers(members[1..]) + ['}'] + tail;
      assert text == EmitMember(members[0]) + ([','] + rest);
      MemberRoundTrip(members[0], [','] + rest);
      assert ([','] + rest)[1..] == rest;
      MembersRoundTrip(members[1..], tail);
      assert members == [members[0]] + members[1..];
    }
  }

  lemma {:induction false} NormPrintable(v: Json)
    requires WellFormed(v)
    ensures Printable(Norm(v))
    decreases v, 1
  {
    match v {
      case Arr(items) =>
        forall i | 0 <= i < |items| ensures Printable(NormItems(items)[i]) {
          NormPrintable(items[i]);
        }
      case Obj(members) => NormMembersPrintable(members);
      case _ =>
    }
  }

  lemma {:induction false} NormMembersPrintable(ms: seq<Member>)
    requires WellFormedMembers(ms)
    ensures Printable(Obj(Sort(NormMembers(ms))))
    decreases ms, 0
  {
    hide Sort, Norm, WellFormed;
    var nm := NormMembers(ms);
    SortProperties(nm);
    forall i | 0 <= i < |Sort(nm)| ensures Printable(Sort(nm)[i].value) {
      assert Sort(nm)[i] in nm;
      var j :| 0 <= j < |nm| && nm[j] == Sort(nm)[i];
      NormPrintable(ms[j].value);
    }
  }
}
