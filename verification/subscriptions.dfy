/**
 * The subscription document of a user and the subscribe / unsubscribe
 * mutation of `manage_subscription` (server/src/routes/users.rs).
 *
 * The document is a JSON object from a method key (such as "accountChange")
 * to a list of subscription keys. A payload `{method, keys}` whose method is
 * "subscribe<Name>" adds the keys to the list under <Name>, one whose method
 * is "unsubscribe<Name>" removes them; anything else leaves the document as
 * it is.
 */
module Subscriptions {
  import opened Wrappers
  import opened Json

  const SubscribePrefix: string := "subscribe"
  const UnsubscribePrefix: string := "unsubscribe"

  /** What a payload's method string asks for, with the prefix stripped off. */
  datatype Action = Subscribe(methodKey: string) | Unsubscribe(methodKey: string) | Ignore

  /**
   * `starts_with("subscribe")` is checked first, then `starts_with("unsubscribe")`;
   * a method with neither prefix is silently ignored.
   */
  function ParseMethod(methodName: string): (a: Action)
    ensures a.Subscribe? <==> SubscribePrefix <= methodName
    ensures a.Unsubscribe? <==> !(SubscribePrefix <= methodName) && UnsubscribePrefix <= methodName
    ensures a.Subscribe? ==> methodName == SubscribePrefix + a.methodKey
    ensures a.Unsubscribe? ==> methodName == UnsubscribePrefix + a.methodKey
  {
    if SubscribePrefix <= methodName then Subscribe(methodName[|SubscribePrefix|..])
    else if UnsubscribePrefix <= methodName then Unsubscribe(methodName[|UnsubscribePrefix|..])
    else Ignore
  }

  /** The method string a client sends for an action: parsing it gives the action back. */
  function MethodString(a: Action): (m: string)
    requires !a.Ignore?
    ensures ParseMethod(m) == a
  {
    if a.Subscribe? then SubscribePrefix + a.methodKey
    else
      var m := UnsubscribePrefix + a.methodKey;
      assert m[0] != SubscribePrefix[0];
      m
  }

  /** `doc.get(key)`: the value under a key of an object; None for a missing key or a non-object. */
  function Field(doc: Value, key: string): Option<Value>
  {
    if doc.Obj? && key in doc.fields then Some(doc.fields[key]) else None
  }

  /**
   * A stored null document is read as the empty object. That is never null,
   * is an object exactly when the stored document is null or an object, and
   * answers every key lookup as the stored document does.
   */
  function Normalized(doc: Value): (r: Value)
    ensures !r.Null?
    ensures r.Obj? <==> doc.Null? || doc.Obj?
    ensures forall k :: Field(r, k) == Field(doc, k)
  {
    if doc.Null? then Obj(map[]) else doc
  }

  predicate NoDuplicates(s: seq<Value>)
  {
    forall i, j :: 0 <= i < j < |s| ==> s[i] != s[j]
  }

  // ---------------------------------------------------------------------------
  // Subscribe: append each key the list does not hold yet

  /** One turn of the subscribe loop: push `key` unless the list already contains it. */
  function PushAbsent(list: seq<Value>, key: string): seq<Value>
  {
    if Str(key) in list then list else list + [Str(key)]
  }

  /**
   * The list after subscribing `keys`, one key after the other. The existing
   * entries stay where they are, and at most one entry per key is added.
   */
  function SubscribeAll(list: seq<Value>, keys: seq<string>): (r: seq<Value>)
    ensures list <= r
    ensures |r| <= |list| + |keys|
  {
    if keys == [] then list
    else PushAbsent(SubscribeAll(list, keys[..|keys| - 1]), keys[|keys| - 1])
  }

  /**
   * The entries a subscribe call appends, described independently of the loop:
   * each input key, in input order, that the list does not hold and that did
   * not occur earlier in the input.
   */
  function NewKeys(list: seq<Value>, keys: seq<string>): seq<Value>
  {
    if keys == [] then []
    else
      var earlier, k := keys[..|keys| - 1], keys[|keys| - 1];
      NewKeys(list, earlier) + (if Str(k) in list || k in earlier then [] else [Str(k)])
  }

  /** The `for key in keys { if !list.contains(..) { list.push(..) } }` loop. */
  method AppendAbsent(list: seq<Value>, keys: seq<string>) returns (r: seq<Value>)
    ensures r == SubscribeAll(list, keys)
  {
    r := list;
    for i := 0 to |keys|
      invariant r == SubscribeAll(list, keys[..i])
    {
      assert keys[..i + 1][..i] == keys[..i];
      if Str(keys[i]) !in r {
        r := r + [Str(keys[i])];
      }
    }
    assert keys[..|keys|] == keys;
  }

  /** Subscribing is set union: afterwards the list holds its old entries and every input key, and nothing else. */
  lemma {:induction false} SubscribeMembers(list: seq<Value>, keys: seq<string>)
    ensures forall v :: v in SubscribeAll(list, keys) <==> v in list || (v.Str? && v.s in keys)
  {
    if keys != [] {
      var earlier := keys[..|keys| - 1];
      SubscribeMembers(list, earlier);
      assert keys == earlier + [keys[|keys| - 1]];
    }
  }

  /** The appended entries are exactly the new keys: not in the list before, and from the input. */
  lemma {:induction false} NewKeysMembers(list: seq<Value>, keys: seq<string>)
    ensures forall v :: v in NewKeys(list, keys) <==> v !in list && v.Str? && v.s in keys
  {
    if keys != [] {
      var earlier := keys[..|keys| - 1];
      NewKeysMembers(list, earlier);
      assert keys == earlier + [keys[|keys| - 1]];
    }
  }

  /** Subscribing keeps the list as a prefix and appends the new keys in input order. */
  lemma {:induction false} SubscribeAppendsNewKeys(list: seq<Value>, keys: seq<string>)
    ensures SubscribeAll(list, keys) == list + NewKeys(list, keys)
  {
    if keys != [] {
      var earlier := keys[..|keys| - 1];
      SubscribeAppendsNewKeys(list, earlier);
      SubscribeMembers(list, earlier);
    }
  }

  /** A list without duplicates has none after subscribing, even when the input repeats a key. */
  lemma {:induction false} SubscribeKeepsNoDuplicates(list: seq<Value>, keys: seq<string>)
    requires NoDuplicates(list)
    ensures NoDuplicates(SubscribeAll(list, keys))
  {
    if keys != [] {
      SubscribeKeepsNoDuplicates(list, keys[..|keys| - 1]);
    }
  }

  /** Subscribing keys that are all present already changes nothing. */
  lemma {:induction false} SubscribePresentIsNoop(list: seq<Value>, keys: seq<string>)
    requires forall k :: k in keys ==> Str(k) in list
    ensures SubscribeAll(list, keys) == list
  {
    if keys != [] {
      var earlier := keys[..|keys| - 1];
      assert forall k :: k in earlier ==> k in keys;
      SubscribePresentIsNoop(list, earlier);
      assert keys[|keys| - 1] in keys;
    }
  }

  /** Subscribing the same keys twice is the same as subscribing them once. */
  lemma SubscribeIdempotent(list: seq<Value>, keys: seq<string>)
    ensures SubscribeAll(SubscribeAll(list, keys), keys) == SubscribeAll(list, keys)
  {
    SubscribeMembers(list, keys);
    SubscribePresentIsNoop(SubscribeAll(list, keys), keys);
  }

  // ---------------------------------------------------------------------------
  // Unsubscribe: keep the entries whose text is not among the keys

  /**
   * `list.retain(|v| !keys.contains(v.as_str().unwrap_or_default()))`. An entry
   * that is not a string is read as "", so it goes only when "" is a key.
   */
  function Unsubscribed(list: seq<Value>, keys: seq<string>): (r: seq<Value>)
    ensures |r| <= |list|
  {
    if list == [] then []
    else
      var last := list[|list| - 1];
      Unsubscribed(list[..|list| - 1], keys) + (if AsStrOrDefault(last) in keys then [] else [last])
  }

  /** The `retain` loop over the list. */
  method Retain(list: seq<Value>, keys: seq<string>) returns (kept: seq<Value>)
    ensures kept == Unsubscribed(list, keys)
  {
    kept := [];
    for i := 0 to |list|
      invariant kept == Unsubscribed(list[..i], keys)
    {
      assert list[..i + 1][..i] == list[..i];
      if AsStrOrDefault(list[i]) !in keys {
        kept := kept + [list[i]];
      }
    }
    assert list[..|list|] == list;
  }

  /** Unsubscribing is set difference: an entry stays exactly when its text is not a key. */
  lemma {:induction false} UnsubscribedMembers(list: seq<Value>, keys: seq<string>)
    ensures forall v :: v in Unsubscribed(list, keys) <==> v in list && AsStrOrDefault(v) !in keys
  {
    if list != [] {
      UnsubscribedMembers(list[..|list| - 1], keys);
      assert list == list[..|list| - 1] + [list[|list| - 1]];
    }
  }

  /** Unsubscribing works entry by entry, so the kept entries stay in their order. */
  lemma {:induction false} UnsubscribedDistributes(a: seq<Value>, b: seq<Value>, keys: seq<string>)
    ensures Unsubscribed(a + b, keys) == Unsubscribed(a, keys) + Unsubscribed(b, keys)
  {
    if b == [] {
      assert a + b == a;
    } else {
      var init, last := b[..|b| - 1], b[|b| - 1];
      var tail := if AsStrOrDefault(last) in keys then [] else [last];
      var ab := a + b;
      assert ab[..|ab| - 1] == a + init && ab[|ab| - 1] == last;
      calc {
        Unsubscribed(ab, keys);
        Unsubscribed(a + init, keys) + tail;
        { UnsubscribedDistributes(a, init, keys); }
        Unsubscribed(a, keys) + Unsubscribed(init, keys) + tail;
        Unsubscribed(a, keys) + (Unsubscribed(init, keys) + tail);
      }
    }
  }

  /**
   * An entry that is not a JSON string is read as "": it survives unsubscribing
   * exactly when "" is not among the keys, whatever else the keys are.
   */
  lemma UnsubscribeNonString(list: seq<Value>, keys: seq<string>, v: Value)
    requires v in list && !v.Str?
    ensures v in Unsubscribed(list, keys) <==> "" !in keys
  {
    UnsubscribedMembers(list, keys);
  }

  /** A list without duplicates has none after unsubscribing. */
  lemma {:induction false} UnsubscribedKeepsNoDuplicates(list: seq<Value>, keys: seq<string>)
    requires NoDuplicates(list)
    ensures NoDuplicates(Unsubscribed(list, keys))
  {
    if list != [] {
      var init := list[..|list| - 1];
      UnsubscribedKeepsNoDuplicates(init, keys);
      UnsubscribedMembers(init, keys);
      assert list[|list| - 1] !in init;
    }
  }

  /** Unsubscribing removes every entry when each entry's text is a key. */
  lemma {:induction false} UnsubscribedAllKeys(list: seq<Value>, keys: seq<string>)
    requires forall v :: v in list ==> AsStrOrDefault(v) in keys
    ensures Unsubscribed(list, keys) == []
  {
    if list != [] {
      var init := list[..|list| - 1];
      assert forall v :: v in init ==> v in list;
      UnsubscribedAllKeys(init, keys);
      assert list[|list| - 1] in list;
    }
  }

  /** Unsubscribing the keys just subscribed leaves what unsubscribing them from the old list leaves. */
  lemma UnsubscribeUndoesSubscribe(list: seq<Value>, keys: seq<string>)
    ensures Unsubscribed(SubscribeAll(list, keys), keys) == Unsubscribed(list, keys)
  {
    var added := NewKeys(list, keys);
    SubscribeAppendsNewKeys(list, keys);
    UnsubscribedDistributes(list, added, keys);
    NewKeysMembers(list, keys);
    UnsubscribedAllKeys(added, keys);
  }

  // ---------------------------------------------------------------------------
  // The whole document

  /**
   * The payload can be applied without a panic: subscribing indexes into the
   * document as an object and unwraps the method key's value as an array.
   */
  predicate Applicable(doc: Value, methodName: string, keys: Option<seq<string>>): (ok: bool)
    ensures !ok ==> keys.Some? && ParseMethod(methodName).Subscribe?
    ensures doc.Null? ==> ok
    ensures (doc.Null? || doc.Obj?) && (forall k :: Field(doc, k).Some? ==> Field(doc, k).value.Arr?) ==> ok
  {
    match ParseMethod(methodName)
    case Subscribe(mk) =>
      var d := Normalized(doc);
      keys.None? || (d.Obj? && (Field(d, mk).Some? ==> Field(d, mk).value.Arr?))
    case _ => true
  }

  /**
   * The document `manage_subscription` writes back for a stored document and a
   * payload `{method, keys}`. A null document comes back as the empty object
   * even when nothing else changes; a missing `keys` or an ignored method
   * changes nothing else; no method key is ever removed.
   */
  function ApplyPayload(doc: Value, methodName: string, keys: Option<seq<string>>): (r: Value)
    requires Applicable(doc, methodName, keys)
    ensures Normalized(doc).Obj? ==> r.Obj? && Normalized(doc).fields.Keys <= r.fields.Keys
    ensures !Normalized(doc).Obj? ==> r == doc
    ensures keys.None? || ParseMethod(methodName).Ignore? ==> r == Normalized(doc)
  {
    var d := Normalized(doc);
    if keys.None? then d
    else match ParseMethod(methodName)
      case Ignore => d
      case Subscribe(mk) =>
        var list := if Field(d, mk).Some? then Field(d, mk).value.items else [];
        Obj(d.fields[mk := Arr(SubscribeAll(list, keys.value))])
      case Unsubscribe(mk) =>
        if Field(d, mk).Some? && Field(d, mk).value.Arr? then
          Obj(d.fields[mk := Arr(Unsubscribed(Field(d, mk).value.items, keys.value))])
        else d
  }

  /**
   * The in-place rewrite of the document: JSON null becomes {}, the subscribe
   * branch creates the method key as [] when absent and pushes the absent
   * keys, the unsubscribe branch retains the entries that are not keys.
   */
  method RewriteDocument(stored: Value, methodName: string, keys: Option<seq<string>>) returns (doc: Value)
    requires Applicable(stored, methodName, keys)
    ensures doc == ApplyPayload(stored, methodName, keys)
  {
    doc := stored;
    if doc.Null? {
      doc := Obj(map[]);
    }
    if keys.Some? {
      match ParseMethod(methodName) {
        case Subscribe(mk) =>
          if Field(doc, mk).None? {
            doc := Obj(doc.fields[mk := Arr([])]);
          }
          var list := AppendAbsent(doc.fields[mk].items, keys.value);
          doc := Obj(doc.fields[mk := Arr(list)]);
        case Unsubscribe(mk) =>
          if Field(doc, mk).Some? && Field(doc, mk).value.Arr? {
            var list := Retain(doc.fields[mk].items, keys.value);
            doc := Obj(doc.fields[mk := Arr(list)]);
          }
        case Ignore =>
      }
    }
  }

  /**
   * Subscribing under a method key creates it as an empty list when absent,
   * subscribes the keys into its list and leaves every other method key as it was.
   */
  lemma SubscribeDocument(doc: Value, mk: string, keys: seq<string>)
    requires Applicable(doc, MethodString(Subscribe(mk)), Some(keys))
    ensures var d, r := Normalized(doc), ApplyPayload(doc, MethodString(Subscribe(mk)), Some(keys));
      var old_list := if Field(d, mk).Some? && Field(d, mk).value.Arr? then Field(d, mk).value.items else [];
      && Field(r, mk) == Some(Arr(SubscribeAll(old_list, keys)))
      && forall k :: k != mk ==> Field(r, k) == Field(d, k)
  {
  }

  /**
   * Unsubscribing filters the list under the method key and leaves every other
   * method key as it was; when the key is absent the document is unchanged.
   */
  lemma UnsubscribeDocument(doc: Value, mk: string, keys: seq<string>)
    ensures var d, r := Normalized(doc), ApplyPayload(doc, MethodString(Unsubscribe(mk)), Some(keys));
      && (Field(d, mk).None? ==> r == d)
      && (Field(d, mk).Some? && !Field(d, mk).value.Arr? ==> r == d)
      && (Field(d, mk).Some? && Field(d, mk).value.Arr? ==>
            Field(r, mk) == Some(Arr(Unsubscribed(Field(d, mk).value.items, keys))))
      && forall k :: k != mk ==> Field(r, k) == Field(d, k)
  {
  }

  /**
   * For three distinct keys A, B, C: subscribing A, B then B, C gives [A, B, C],
   * and unsubscribing B then leaves [A, C].
   */
  lemma SubscribeThenUnsubscribeExample(ka: string, kb: string, kc: string)
    requires ka != kb && kb != kc && ka != kc
    ensures SubscribeAll(SubscribeAll([], [ka, kb]), [kb, kc]) == [Str(ka), Str(kb), Str(kc)]
    ensures Unsubscribed([Str(ka), Str(kb), Str(kc)], [kb]) == [Str(ka), Str(kc)]
  {
    SubscribeTwoFresh(ka, kb);
    SubscribeOldAndNew(ka, kb, kc);
    UnsubscribeMiddle(ka, kb, kc);
  }

  lemma SubscribeTwoFresh(ka: string, kb: string)
    requires ka != kb
    ensures SubscribeAll([], [ka, kb]) == [Str(ka), Str(kb)]
  {
  }

  lemma SubscribeOldAndNew(ka: string, kb: string, kc: string)
    requires ka != kb && kb != kc && ka != kc
    ensures SubscribeAll([Str(ka), Str(kb)], [kb, kc]) == [Str(ka), Str(kb), Str(kc)]
  {
    assert [kb, kc][..1] == [kb] && [kb][..0] == [];
    assert SubscribeAll([Str(ka), Str(kb)], [kb]) == [Str(ka), Str(kb)];
  }

  lemma UnsubscribeMiddle(ka: string, kb: string, kc: string)
    requires ka != kb && kb != kc
    ensures Unsubscribed([Str(ka), Str(kb), Str(kc)], [kb]) == [Str(ka), Str(kc)]
  {
    var a, b, c := Str(ka), Str(kb), Str(kc);
    assert [a, b, c][..2] == [a, b] && [a, b][..1] == [a] && [a][..0] == [];
    assert Unsubscribed([a], [kb]) == [a];
    assert Unsubscribed([a, b], [kb]) == [a];
  }
}
