/**
 * The field catalogue: the keys a pipeline row can name (`Key`, the synthetic `index`
 * plus every item field) and the value kind of each (`PlItemData`). The catalogue
 * is enumerated in this order by the editors (`PlItemKeys`, `Object.entries(PlItemData)`).
 */
module Catalog {

  datatype Key =
    | Index | VideoId | Title | Description | Note | Position
    | ChannelTitle | ChannelId | Duration | AddedAt | PublishedAt

  datatype Kind = NumberKind | IdKind | StringKind | DurationKind | DateKind

  function KindOf(k: Key): Kind {
    match k
    case Index => NumberKind
    case Position => NumberKind
    case VideoId => IdKind
    case ChannelId => IdKind
    case Title => StringKind
    case Description => StringKind
    case Note => StringKind
    case ChannelTitle => StringKind
    case Duration => DurationKind
    case AddedAt => DateKind
    case PublishedAt => DateKind
  }

  /** Every key once, in catalogue order. */
  function AllKeys(): (ks: seq<Key>)
    ensures forall k :: k in ks
    ensures forall i, j :: 0 <= i < j < |ks| ==> ks[i] != ks[j]
  {
    var ks := [Index, VideoId, Title, Description, Note, Position, ChannelTitle, ChannelId, Duration, AddedAt, PublishedAt];
    assert forall k :: k in ks by {
      forall k ensures k in ks {
        InCatalogue(k, ks);
      }
    }
    ks
  }

  lemma InCatalogue(k: Key, ks: seq<Key>)
    requires ks == [Index, VideoId, Title, Description, Note, Position, ChannelTitle, ChannelId, Duration, AddedAt, PublishedAt]
    ensures k in ks
  {
    match k
    case Index => assert ks[0] == k;
    case VideoId => assert ks[1] == k;
    case Title => assert ks[2] == k;
    case Description => assert ks[3] == k;
    case Note => assert ks[4] == k;
    case Position => assert ks[5] == k;
    case ChannelTitle => assert ks[6] == k;
    case ChannelId => assert ks[7] == k;
    case Duration => assert ks[8] == k;
    case AddedAt => assert ks[9] == k;
    case PublishedAt => assert ks[10] == k;
  }

  /** The keys that share `kind`, in catalogue order. */
  function KeysOfKind(kind: Kind): (ks: seq<Key>)
    ensures forall k :: k in ks <==> KindOf(k) == kind
    ensures forall i, j :: 0 <= i < j < |ks| ==> ks[i] != ks[j]
  {
    KeysWhere(AllKeys(), kind)
  }

  function KeysWhere(s: seq<Key>, kind: Kind): (ks: seq<Key>)
    ensures forall k :: k in ks <==> k in s && KindOf(k) == kind
    ensures (forall i, j :: 0 <= i < j < |s| ==> s[i] != s[j]) ==>
      forall i, j :: 0 <= i < j < |ks| ==> ks[i] != ks[j]
    decreases |s|
  {
    if s == [] then []
    else
      var rest := KeysWhere(s[1..], kind);
      assert (forall i, j :: 0 <= i < j < |s| ==> s[i] != s[j]) ==> s[0] !in s[1..];
      if KindOf(s[0]) == kind then [s[0]] + rest else rest
  }
}
