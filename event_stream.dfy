/**
 * The EventStream element of an MPEG-DASH media presentation description
 * (ISO/IEC 23009-1, section 5.10.2), as libdash's mpd/EventStream.cpp keeps it:
 * a record of attributes with a getter and a setter each, and an ordered list of
 * events that only grows. The events are opaque here (type parameter E); the
 * source stores pointers to IEvent.
 */
module MpdEventStream {

  type UInt32 = x: int | 0 <= x < 0x1_0000_0000

  class EventStream<E> {
    var xlinkHref: string
    var xlinkActuate: string
    var schemeIdUri: string
    var value: string
    var timescale: UInt32
    var events: seq<E>

    /** A new element: xlink:actuate "onRequest", timescale 1, every other attribute empty, no events. */
    constructor ()
      ensures xlinkHref == "" && xlinkActuate == "onRequest" && schemeIdUri == "" && value == ""
      ensures timescale == 1
      ensures events == []
    {
      xlinkHref := "";
      xlinkActuate := "onRequest";
      schemeIdUri := "";
      value := "";
      timescale := 1;
      events := [];
    }

    /** The events in the order they were added; nothing changes. */
    method GetEvents() returns (r: seq<E>)
      ensures r == events
    {
      r := events;
    }

    /** Appends one event at the end: earlier events keep their positions. */
    method AddEvent(event: E)
      modifies this
      ensures events == old(events) + [event]
      ensures |events| == |old(events)| + 1 && events[|events| - 1] == event
      ensures forall k :: 0 <= k < |old(events)| ==> events[k] == old(events)[k]
      ensures xlinkHref == old(xlinkHref) && xlinkActuate == old(xlinkActuate)
      ensures schemeIdUri == old(schemeIdUri) && value == old(value) && timescale == old(timescale)
    {
      events := events + [event];
    }

    /** The stored attribute, as the last call to SetXlinkHref (or the constructor) left it. */
    function GetXlinkHref(): (r: string)
      reads this
      ensures r == xlinkHref
    {
      xlinkHref
    }

    /** Stores the string as given and changes nothing else. */
    method SetXlinkHref(s: string)
      modifies this
      ensures GetXlinkHref() == s
      ensures xlinkActuate == old(xlinkActuate) && schemeIdUri == old(schemeIdUri)
      ensures value == old(value) && timescale == old(timescale) && events == old(events)
    {
      xlinkHref := s;
    }

    /** The stored attribute, as the last call to SetXlinkActuate (or the constructor) left it. */
    function GetXlinkActuate(): (r: string)
      reads this
      ensures r == xlinkActuate
    {
      xlinkActuate
    }

    /** Stores the string as given, even one that is not "onLoad" or "onRequest", and changes nothing else. */
    method SetXlinkActuate(s: string)
      modifies this
      ensures GetXlinkActuate() == s
      ensures xlinkHref == old(xlinkHref) && schemeIdUri == old(schemeIdUri)
      ensures value == old(value) && timescale == old(timescale) && events == old(events)
    {
      xlinkActuate := s;
    }

    /** The stored attribute, as the last call to SetSchemeIdUri (or the constructor) left it. */
    function GetSchemeIdUri(): (r: string)
      reads this
      ensures r == schemeIdUri
    {
      schemeIdUri
    }

    /** Stores the string as given and changes nothing else. */
    method SetSchemeIdUri(s: string)
      modifies this
      ensures GetSchemeIdUri() == s
      ensures xlinkHref == old(xlinkHref) && xlinkActuate == old(xlinkActuate)
      ensures value == old(value) && timescale == old(timescale) && events == old(events)
    {
      schemeIdUri := s;
    }

    /** The stored attribute, as the last call to SetValue (or the constructor) left it. */
    function GetValue(): (r: string)
      reads this
      ensures r == value
    {
      value
    }

    /** Stores the string as given and changes nothing else. */
    method SetValue(s: string)
      modifies this
      ensures GetValue() == s
      ensures xlinkHref == old(xlinkHref) && xlinkActuate == old(xlinkActuate)
      ensures schemeIdUri == old(schemeIdUri) && timescale == old(timescale) && events == old(events)
    {
      value := s;
    }

    /** The stored attribute, as the last call to SetTimescale (or the constructor) left it. */
    function GetTimescale(): (r: UInt32)
      reads this
      ensures r == timescale
    {
      timescale
    }

    /** Stores the value as given, 0 included, and changes nothing else. */
    method SetTimescale(t: UInt32)
      modifies this
      ensures GetTimescale() == t
      ensures xlinkHref == old(xlinkHref) && xlinkActuate == old(xlinkActuate)
      ensures schemeIdUri == old(schemeIdUri) && value == old(value) && events == old(events)
    {
      timescale := t;
    }
  }

  /**
   * A sequence of calls on one element: the last value given to each setter is
   * what its getter returns, a later call to another setter does not disturb it,
   * and the events come back in the order they were added.
   */
  method SetThenGet<E>(href: string, actuate: string, t: UInt32, e1: E, e2: E)
    returns (gotHref: string, gotActuate: string, gotScheme: string, gotTimescale: UInt32, gotEvents: seq<E>)
    ensures gotHref == href && gotActuate == actuate && gotScheme == "" && gotTimescale == t
    ensures gotEvents == [e1, e2]
  {
    var es := new EventStream<E>();
    es.SetXlinkHref("first");
    es.AddEvent(e1);
    es.SetXlinkActuate(actuate);
    es.SetXlinkHref(href);
    es.SetTimescale(t);
    es.AddEvent(e2);
    es.SetValue("v");
    gotHref := es.GetXlinkHref();
    gotActuate := es.GetXlinkActuate();
    gotScheme := es.GetSchemeIdUri();
    gotTimescale := es.GetTimescale();
    gotEvents := es.GetEvents();
  }
}
