/** String helpers over trace events: truncation with an ellipsis, padding,
    default display widths, field lookup by name and the canonical raw text
    of an event. */
module Extensions {
  import opened TraceTypes

  // ---------------------------------------------------------------------
  // Numbers as text (Int32.ToString() and Int32.Parse of ASCII digits)
  // ---------------------------------------------------------------------

  predicate IsDigit(c: char) { '0' <= c <= '9' }

  predicate AllDigits(s: string) { forall i :: 0 <= i < |s| ==> IsDigit(s[i]) }

  function DigitChar(d: nat): (c: char)
    requires d < 10
    ensures IsDigit(c)
  {
    ('0' as int + d) as char
  }

  /** Decimal representation of a natural number, without leading zeros. */
  function NatToString(n: nat): (r: string)
    ensures |r| >= 1 && AllDigits(r)
    ensures |r| > 1 ==> r[0] != '0'
    decreases n
  {
    if n < 10 then [DigitChar(n)] else NatToString(n / 10) + [DigitChar(n % 10)]
  }

  function Pow10(k: nat): (r: nat)
    ensures r >= 1
  {
    if k == 0 then 1 else 10 * Pow10(k - 1)
  }

  /** The value of a run of ASCII digits (int.Parse without overflow):
      below 10 to the number of digits. */
  function ParseNat(s: string): (r: nat)
    requires AllDigits(s)
    ensures r < Pow10(|s|)
  {
    if s == [] then 0 else ParseNat(s[..|s| - 1]) * 10 + (s[|s| - 1] as int - '0' as int)
  }

  /** Parsing the printed form of a number gives the number back. */
  lemma {:induction false} ParseNatToString(n: nat)
    ensures ParseNat(NatToString(n)) == n
    decreases n
  {
    var s := NatToString(n);
    if n >= 10 {
      assert s[..|s| - 1] == NatToString(n / 10);
      ParseNatToString(n / 10);
    }
  }

  /** Decimal text of an integer (Int32.ToString()): digits without
      leading zeros, after a '-' when negative, that read back as the
      integer's magnitude. */
  function IntToString(i: int): (r: string)
    ensures i >= 0 ==> AllDigits(r) && ParseNat(r) == i
    ensures i < 0 ==> 2 <= |r| && r[0] == '-' && AllDigits(r[1..]) && ParseNat(r[1..]) == -i
    ensures 2 <= |r| && IsDigit(r[0]) ==> r[0] != '0'
    ensures i < 0 && 3 <= |r| ==> r[1] != '0'
  {
    if i < 0 then
      ParseNatToString(-i);
      assert ("-" + NatToString(-i))[1..] == NatToString(-i);
      "-" + NatToString(-i)
    else
      ParseNatToString(i);
      NatToString(i)
  }

  // ---------------------------------------------------------------------
  // Truncate and padding
  // ---------------------------------------------------------------------

  /** `s.Substring(0, length - 3)` only succeeds when `length >= 3`, so a
      string longer than its limit can be truncated only then. */
  predicate CanTruncate(s: string, length: int) { |s| <= length || 3 <= length }

  /** Cuts a string that is longer than `length` to `length - 3`
      characters followed by "...". */
  function Truncate(s: string, length: int): (r: string)
    requires CanTruncate(s, length)
    ensures |r| <= length
    ensures |s| <= length ==> r == s
    ensures |s| > length ==> |r| == length && r[..length - 3] == s[..length - 3] && r[length - 3..] == "..."
  {
    if |s| <= length then s else s[..length - 3] + "..."
  }

  /** Truncating twice to the same limit is the same as truncating once. */
  lemma TruncateIdempotent(s: string, length: int)
    requires CanTruncate(s, length)
    ensures CanTruncate(Truncate(s, length), length)
    ensures Truncate(Truncate(s, length), length) == Truncate(s, length)
  {
  }

  lemma TruncateExamples()
    ensures Truncate("hello world", 8) == "hello..."
    ensures Truncate("hi", 8) == "hi"
  {
    assert "hello world"[..5] == "hello";
  }

  function Spaces(n: nat): (r: string)
    ensures |r| == n && forall i :: 0 <= i < n ==> r[i] == ' '
  {
    seq(n, _ => ' ')
  }

  /** The composite format item `{0,-width}`: left-justified in a field of
      at least `width` characters; never shortens the string. */
  function PadRight(s: string, width: int): (r: string)
    ensures |r| == if |s| >= width then |s| else width
    ensures r[..|s|] == s
    ensures forall i :: |s| <= i < |r| ==> r[i] == ' '
  {
    if |s| >= width then s else s + Spaces(width - |s|)
  }

  // ---------------------------------------------------------------------
  // Field names
  // ---------------------------------------------------------------------

  /** The field names that denote event metadata rather than payload. */
  predicate IsReserved(field: string) {
    field == "Event" || field == "PID" || field == "TID" || field == "Time"
  }

  /** Default display width of a field. */
  function GetExpectedFieldWidth(field: string): (w: nat)
    ensures field == "Event" ==> w == 20
    ensures field == "PID" || field == "TID" ==> w == 5
    ensures field == "Time" ==> w == 15
    ensures !IsReserved(field) ==> w == 30
  {
    match field
    case "Event" => 20
    case "PID" => 5
    case "TID" => 5
    case "Time" => 15
    case _ => 30
  }

  /** Every default width is at least 3, so a default column can always
      truncate its values. */
  lemma DefaultWidthTruncates(field: string, s: string)
    ensures CanTruncate(s, GetExpectedFieldWidth(field))
  {
  }

  /** What reading the first payload field named `name` gives (None when
      no field has that name); stated by PayloadByNameFirst. */
  function PayloadByName(payload: seq<PayloadField>, name: string): Option<FieldValue>
  {
    if payload == [] then None
    else if payload[0].name == name then Some(payload[0].value)
    else PayloadByName(payload[1..], name)
  }

  /** The lookup finds the value of the first field with that name, and
      nothing when no field has it. */
  lemma {:induction false} PayloadByNameFirst(payload: seq<PayloadField>, name: string)
    ensures forall i :: 0 <= i < |payload| && payload[i].name == name ==>
      (exists j :: 0 <= j < i && payload[j].name == name) || PayloadByName(payload, name) == Some(payload[i].value)
    ensures (forall i :: 0 <= i < |payload| ==> payload[i].name != name) ==> PayloadByName(payload, name) == None
    decreases |payload|
  {
    if payload != [] {
      PayloadByNameFirst(payload[1..], name);
      forall i | 1 <= i < |payload| && payload[i].name == name &&
        !(exists j :: 0 <= j < i && payload[j].name == name)
        ensures PayloadByName(payload, name) == Some(payload[i].value)
      {
        assert payload[1..][i - 1] == payload[i];
        assert !(exists j :: 0 <= j < i - 1 && payload[1..][j].name == name) by {
          forall j | 0 <= j < i - 1 ensures payload[1..][j].name != name {
            assert payload[1..][j] == payload[j + 1];
          }
        }
      }
      if forall i :: 0 <= i < |payload| ==> payload[i].name != name {
        assert forall i :: 0 <= i < |payload[1..]| ==> payload[1..][i].name != name by {
          forall i | 0 <= i < |payload[1..]| ensures payload[1..][i].name != name {
            assert payload[1..][i] == payload[i + 1];
          }
        }
      }
    }
  }

  /** The string form of a named field: reserved names give event metadata,
      any other name the payload value, or "<null>" when there is no field
      of that name or its value is null. Reading the value is not guarded,
      so a value that cannot be read throws. */
  function GetFieldByName(e: Event, field: string): (r: Result<string>)
    ensures field == "Event" ==> r == Ok(e.eventName)
    ensures field == "PID" ==> r == Ok(IntToString(e.processId))
    ensures field == "TID" ==> r == Ok(IntToString(e.threadId))
    ensures field == "Time" ==> r == Ok(e.timeStamp)
    ensures r.Throws? <==> !IsReserved(field) && PayloadByName(e.payload, field) == Some(Unreadable)
    ensures r.Throws? ==> r.error == ArgumentOutOfRange
    ensures !IsReserved(field) && r.Ok? && r.value != "<null>" ==>
      PayloadByName(e.payload, field) == Some(Value(r.value))
  {
    if field == "Event" then Ok(e.eventName)
    else if field == "PID" then Ok(IntToString(e.processId))
    else if field == "TID" then Ok(IntToString(e.threadId))
    else if field == "Time" then Ok(e.timeStamp)
    else match PayloadByName(e.payload, field)
      case Some(Value(v)) => Ok(v)
      case Some(NullValue) => Ok("<null>")
      case Some(Unreadable) => Throws(ArgumentOutOfRange)
      case None => Ok("<null>")
  }

  /** A reserved name never consults the payload. */
  lemma ReservedIgnoresPayload(e: Event, field: string, other: seq<PayloadField>)
    requires IsReserved(field)
    ensures GetFieldByName(e.(payload := other), field) == GetFieldByName(e, field)
  {
  }

  /** A payload name is looked up in the first field of that name: its
      string form, "<null>" for a null value, and a throw when the value
      cannot be read. */
  lemma PayloadFieldLookup(e: Event, field: string, i: nat)
    requires !IsReserved(field)
    requires i < |e.payload| && e.payload[i].name == field
    requires forall j :: 0 <= j < i ==> e.payload[j].name != field
    ensures e.payload[i].value.Value? ==> GetFieldByName(e, field) == Ok(e.payload[i].value.text)
    ensures e.payload[i].value.NullValue? ==> GetFieldByName(e, field) == Ok("<null>")
    ensures e.payload[i].value.Unreadable? ==> GetFieldByName(e, field) == Throws(ArgumentOutOfRange)
  {
    PayloadByNameFirst(e.payload, field);
  }

  lemma AbsentFieldIsNull(e: Event, field: string)
    requires !IsReserved(field)
    requires forall j :: 0 <= j < |e.payload| ==> e.payload[j].name != field
    ensures GetFieldByName(e, field) == Ok("<null>")
  {
    PayloadByNameFirst(e.payload, field);
  }

  // ---------------------------------------------------------------------
  // Raw text of an event
  // ---------------------------------------------------------------------

  /** The first line of the raw text. `osProcessName` is the name the
      operating system reports for the event's process id. */
  function RawHeader(e: Event, osProcessName: string): string
  {
    e.eventName + " [PNAME=" + e.processName + " PID=" + IntToString(e.processId) +
    " TID=" + IntToString(e.threadId) + " TIME=" + e.timeStamp + "] TaskName=" + e.taskName +
    " ProcessName:" + osProcessName + " EventName:" + e.eventName
  }

  /** The header line starts with the event name and ends with
      " EventName:" and the event name again. */
  lemma RawHeaderNamesEvent(e: Event, osProcessName: string)
    ensures var h := RawHeader(e, osProcessName);
      |e.eventName| + 11 <= |h| && h[..|e.eventName|] == e.eventName &&
      h[|h| - |e.eventName| - 11..] == " EventName:" + e.eventName
  {
    var front := e.eventName + " [PNAME=" + e.processName + " PID=" + IntToString(e.processId) +
      " TID=" + IntToString(e.threadId) + " TIME=" + e.timeStamp + "] TaskName=" + e.taskName +
      " ProcessName:" + osProcessName;
    var rest := front[|e.eventName|..];
    assert front == e.eventName + rest;
    assert RawHeader(e, osProcessName) == e.eventName + (rest + (" EventName:" + e.eventName));
    assert RawHeader(e, osProcessName) == front + (" EventName:" + e.eventName);
  }

  /** The line of one readable payload field; a null value is formatted
      as the empty string. */
  function RawLine(name: string, value: string): (r: string)
    ensures |r| == 3 + (if |name| >= 20 then |name| else 20) + 3 + |value|
    ensures r[..3] == "\n  " && r[3..3 + |name|] == name
    ensures r[|r| - |value|..] == value
  {
    var padded := PadRight(name, 20);
    assert ("\n  " + padded + " = " + value)[3..3 + |name|] == padded[..|name|];
    "\n  " + padded + " = " + value
  }

  /** The layout of a field line: the name is padded with spaces to a
      column of at least 20 characters, then " = " separates it from the
      value. */
  lemma RawLineLayout(name: string, value: string)
    ensures var r, w := RawLine(name, value), if |name| >= 20 then |name| else 20;
      |r| == 6 + w + |value| &&
      (forall k :: 3 + |name| <= k < 3 + w ==> r[k] == ' ') && r[3 + w..6 + w] == " = "
  {
    var padded := PadRight(name, 20);
    var r := "\n  " + padded + " = " + value;
    assert r == RawLine(name, value);
    assert forall k :: 3 + |name| <= k < 3 + |padded| ==> r[k] == padded[k - 3];
    assert r[3 + |padded|..6 + |padded|] == " = ";
  }

  /** What one payload field adds to the raw text: its line, with a null
      value formatted as the empty string, or nothing when the value cannot
      be read. */
  function FieldText(f: PayloadField): (r: string)
    ensures r == "" <==> f.value.Unreadable?
    ensures !f.value.Unreadable? ==> 26 <= |r| && r[..3] == "\n  "
  {
    match f.value
    case Value(v) => RawLine(f.name, v)
    case NullValue => RawLine(f.name, "")
    case Unreadable => ""
  }

  /** The lines of the readable fields of a payload, in payload order. */
  function RawFields(payload: seq<PayloadField>): string
  {
    if payload == [] then "" else FieldText(payload[0]) + RawFields(payload[1..])
  }

  /** The raw text of an event: the header line, then the lines of its
      readable payload fields. */
  function RawString(e: Event, osProcessName: string): string
  {
    RawHeader(e, osProcessName) + RawFields(e.payload)
  }

  /** The raw text opens with the header line. */
  lemma RawStringOpensWithHeader(e: Event, osProcessName: string)
    ensures |RawHeader(e, osProcessName)| <= |RawString(e, osProcessName)|
    ensures RawString(e, osProcessName)[..|RawHeader(e, osProcessName)|] == RawHeader(e, osProcessName)
  {
  }

  /** A payload renders to nothing exactly when none of its values can be
      read. */
  lemma {:induction false} RawFieldsEmpty(payload: seq<PayloadField>)
    ensures RawFields(payload) == "" <==> forall i :: 0 <= i < |payload| ==> payload[i].value.Unreadable?
    decreases |payload|
  {
    if payload != [] {
      RawFieldsEmpty(payload[1..]);
      assert forall i :: 1 <= i < |payload| ==> payload[i] == payload[1..][i - 1];
    }
  }

  /** The raw text is the header line alone exactly when no payload value
      can be read. */
  lemma HeaderOnlyWhenNothingReadable(e: Event, osProcessName: string)
    ensures RawString(e, osProcessName) == RawHeader(e, osProcessName) <==>
      forall i :: 0 <= i < |e.payload| ==> e.payload[i].value.Unreadable?
  {
    RawFieldsEmpty(e.payload);
    var h := RawHeader(e, osProcessName);
    assert |RawString(e, osProcessName)| == |h| + |RawFields(e.payload)|;
  }

  /** The rendering of a payload is the rendering of its parts, joined. */
  lemma {:induction false} RawFieldsConcat(a: seq<PayloadField>, b: seq<PayloadField>)
    ensures RawFields(a + b) == RawFields(a) + RawFields(b)
    decreases |a|
  {
    if a == [] {
      assert a + b == b;
    } else {
      assert (a + b)[1..] == a[1..] + b;
      RawFieldsConcat(a[1..], b);
    }
  }

  /** Rendering one more field of a prefix of the payload appends its text
      to what the shorter prefix rendered. */
  lemma RawFieldsPrefix(h: string, payload: seq<PayloadField>, i: nat)
    requires i < |payload|
    ensures h + RawFields(payload[..i + 1]) == (h + RawFields(payload[..i])) + FieldText(payload[i])
  {
    var f := payload[i];
    assert payload[..i + 1] == payload[..i] + [f];
    RawFieldsConcat(payload[..i], [f]);
    assert [f][1..] == [];
    assert h + (RawFields(payload[..i]) + FieldText(f)) == (h + RawFields(payload[..i])) + FieldText(f);
  }

  /** An unreadable field is left out and does not disturb the others. */
  lemma UnreadableFieldSkipped(a: seq<PayloadField>, name: string, b: seq<PayloadField>)
    ensures RawFields(a + [PayloadField(name, Unreadable)] + b) == RawFields(a) + RawFields(b)
  {
    RawFieldsConcat(a + [PayloadField(name, Unreadable)], b);
    RawFieldsConcat(a, [PayloadField(name, Unreadable)]);
  }

  /** Every readable field contributes its own line, in payload order. */
  lemma ReadableFieldShown(a: seq<PayloadField>, name: string, value: string, b: seq<PayloadField>)
    ensures RawFields(a + [PayloadField(name, Value(value))] + b) ==
            RawFields(a) + RawLine(name, value) + RawFields(b)
  {
    RawFieldsConcat(a + [PayloadField(name, Value(value))], b);
    RawFieldsConcat(a, [PayloadField(name, Value(value))]);
  }

  /** A null value is shown as an empty value, unlike GetFieldByName's
      "<null>". */
  lemma NullFieldShownEmpty(a: seq<PayloadField>, name: string, b: seq<PayloadField>)
    ensures RawFields(a + [PayloadField(name, NullValue)] + b) ==
            RawFields(a) + RawLine(name, "") + RawFields(b)
  {
    RawFieldsConcat(a + [PayloadField(name, NullValue)], b);
    RawFieldsConcat(a, [PayloadField(name, NullValue)]);
  }

  /** Builds the raw text field by field; a field whose value cannot be
      read is skipped. */
  method AsRawString(e: Event, osProcessName: string) returns (s: string)
    ensures s == RawString(e, osProcessName)
  {
    var header := RawHeader(e, osProcessName);
    s := header;
    var i := 0;
    while i < |e.payload|
      invariant 0 <= i <= |e.payload|
      invariant s == header + RawFields(e.payload[..i])
    {
      var field := e.payload[i];
      RawFieldsPrefix(header, e.payload, i);
      match field.value {
        case Value(v) => s := s + RawLine(field.name, v);
        case NullValue => s := s + RawLine(field.name, "");
        case Unreadable =>  // the exception from PayloadValue is swallowed
      }
      i := i + 1;
    }
    assert e.payload[..i] == e.payload;
  }
}
