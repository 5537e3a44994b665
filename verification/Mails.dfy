/** network/post.cc and machine/network.cc: how a piece of mail is laid out on the wire.

    A post office puts the mail header before the payload, the network puts the packet header
    before both, and a wire always carries MAX_WIRE_SIZE bytes, of which the rest is whatever
    the buffer held. */
module Mails {
  import opened Bytes
  import opened DiskImages

  const MAX_WIRE_SIZE := 64
  const HEADER_SIZE := 12
  const MAX_PACKET_SIZE := MAX_WIRE_SIZE - HEADER_SIZE
  const MAX_MAIL_SIZE := MAX_PACKET_SIZE - HEADER_SIZE

  /** PacketHeader (machine addresses) and MailHeader (mailbox numbers) have the same layout. */
  datatype Header = Header(to: int32, from: int32, length: word)

  datatype Mail = Mail(pktHdr: Header, mailHdr: Header, data: seq<byte>)

  type Wire = w: seq<byte> | |w| == MAX_WIRE_SIZE witness seq(MAX_WIRE_SIZE, _ => 0)

  function EncodeHeader(h: Header): (bs: seq<byte>)
    ensures |bs| == HEADER_SIZE
  {
    EncodeWords([ToWord(h.to), ToWord(h.from), h.length])
  }

  function DecodeHeader(bs: seq<byte>): Header
    requires |bs| == HEADER_SIZE
  {
    var ws := DecodeWords(bs);
    Header(FromWord(ws[0]), FromWord(ws[1]), ws[2])
  }

  lemma HeaderRoundTrip(h: Header)
    ensures DecodeHeader(EncodeHeader(h)) == h
  {
    WordsRoundTrip([ToWord(h.to), ToWord(h.from), h.length]);
    hide EncodeWords, DecodeWords;
  }

  /** What PostOffice::Send makes of a message no longer than MAX_MAIL_SIZE */
  predicate WellFormed(mail: Mail) {
    && mail.mailHdr.length == |mail.data| <= MAX_MAIL_SIZE
    && mail.pktHdr.length == mail.mailHdr.length + HEADER_SIZE
  }

  /** The wire `w` carries `mail`, whatever its other bytes are. */
  ghost predicate Carries(w: Wire, mail: Mail) {
    && WellFormed(mail)
    && w[..2 * HEADER_SIZE + |mail.data|] == EncodeHeader(mail.pktHdr) + EncodeHeader(mail.mailHdr) + mail.data
  }

  /** Packet contents `bytes` can be taken apart: the mail header and its payload are there. */
  predicate Readable(bytes: seq<byte>) {
    && HEADER_SIZE <= |bytes| <= MAX_PACKET_SIZE
    && HEADER_SIZE + DecodeHeader(bytes[..HEADER_SIZE]).length <= |bytes|
  }

  function Unpacked(pktHdr: Header, bytes: seq<byte>): Mail
    requires Readable(bytes)
  {
    var mailHdr := DecodeHeader(bytes[..HEADER_SIZE]);
    Mail(pktHdr, mailHdr, bytes[HEADER_SIZE..HEADER_SIZE + mailHdr.length])
  }

  function HeaderOf(w: Wire): Header {
    DecodeHeader(w[..HEADER_SIZE])
  }

  /** The packet without its header, as CheckPktAvail copies it to the inbox */
  function ContentsOf(w: Wire): seq<byte>
    requires HeaderOf(w).length <= MAX_PACKET_SIZE
  {
    w[HEADER_SIZE..HEADER_SIZE + HeaderOf(w).length]
  }

  predicate Legible(w: Wire) {
    HeaderOf(w).length <= MAX_PACKET_SIZE && Readable(ContentsOf(w))
  }

  function MailOf(w: Wire): Mail
    requires Legible(w)
  {
    Unpacked(HeaderOf(w), ContentsOf(w))
  }

  /** The three parts of what a wire carries */
  lemma Parts(w: Wire, mail: Mail)
    requires Carries(w, mail)
    ensures w[..HEADER_SIZE] == EncodeHeader(mail.pktHdr)
    ensures w[HEADER_SIZE..2 * HEADER_SIZE + |mail.data|] == EncodeHeader(mail.mailHdr) + mail.data
  {
    hide EncodeHeader;
    var all := w[..2 * HEADER_SIZE + |mail.data|];
    assert w[..HEADER_SIZE] == all[..HEADER_SIZE];
    assert w[HEADER_SIZE..2 * HEADER_SIZE + |mail.data|] == all[HEADER_SIZE..];
  }

  /** A header and a payload are taken apart again. */
  lemma Reread(hdr: Header, data: seq<byte>, bytes: seq<byte>)
    requires bytes == EncodeHeader(hdr) + data
    ensures bytes[..HEADER_SIZE] == EncodeHeader(hdr) && DecodeHeader(bytes[..HEADER_SIZE]) == hdr && bytes[HEADER_SIZE..] == data
  {
    HeaderRoundTrip(hdr);
    hide EncodeHeader, DecodeHeader;
    assert bytes[..HEADER_SIZE] == EncodeHeader(hdr);
  }

  /** Headers and payload come out as they went in. */
  lemma Intact(w: Wire, mail: Mail)
    requires Carries(w, mail)
    ensures Legible(w) && MailOf(w) == mail
  {
    hide EncodeHeader, DecodeHeader, Carries;
    Parts(w, mail);
    HeaderRoundTrip(mail.pktHdr);
    CarriesWellFormed(w, mail);
    Reread(mail.mailHdr, mail.data, ContentsOf(w));
  }

  lemma CarriesWellFormed(w: Wire, mail: Mail)
    requires Carries(w, mail)
    ensures WellFormed(mail)
  {
  }

  /** A fresh buffer holding `hdr` and then the first `length` bytes of `data` */
  method Concatenate(hdr: Header, data: array<byte>, length: nat, size: nat) returns (buffer: array<byte>)
    requires length <= data.Length && HEADER_SIZE + length <= size
    ensures fresh(buffer) && buffer.Length == size
    ensures buffer[..HEADER_SIZE + length] == EncodeHeader(hdr) + data[..length]
  {
    buffer := new byte[size];
    Bcopy(EncodeHeader(hdr), buffer, 0);
    assert buffer[..HEADER_SIZE] == EncodeHeader(hdr);
    Bcopy(data[..length], buffer, HEADER_SIZE);
  }

  /** PostOffice::Send and Network::Send: mail from machine `netAddr`, ready for the socket */
  method Compose(netAddr: int32, to: int32, mailHdr: Header, data: array<byte>) returns (buffer: array<byte>)
    requires mailHdr.length <= MAX_MAIL_SIZE && mailHdr.length <= data.Length
    ensures fresh(buffer) && buffer.Length == MAX_WIRE_SIZE
    ensures Carries(buffer[..], Mail(Header(to, netAddr, mailHdr.length + HEADER_SIZE), mailHdr, data[..mailHdr.length]))
  {
    var pktHdr := Header(to, netAddr, mailHdr.length + HEADER_SIZE);
    var packet := Concatenate(mailHdr, data, mailHdr.length, MAX_PACKET_SIZE);
    ghost var contents := packet[..pktHdr.length];
    assert contents == EncodeHeader(mailHdr) + data[..mailHdr.length];
    buffer := Concatenate(pktHdr, packet, pktHdr.length, MAX_WIRE_SIZE);
    assert buffer[..][..2 * HEADER_SIZE + mailHdr.length] == EncodeHeader(pktHdr) + contents;
  }

  /** CheckPktAvail, Network::Receive and the postal worker: mail taken off the socket, through
      the inbox and the worker's buffer */
  method TakeApart(wire: array<byte>, inbox: array<byte>, buffer: array<byte>) returns (mail: Mail)
    requires wire.Length == MAX_WIRE_SIZE && inbox.Length == MAX_PACKET_SIZE && buffer.Length == MAX_PACKET_SIZE
    requires inbox != buffer && inbox != wire && buffer != wire && Legible(wire[..])
    modifies inbox, buffer
    ensures mail == MailOf(wire[..])
  {
    hide DecodeHeader;
    ghost var w: Wire := wire[..];
    ghost var contents := ContentsOf(w);
    assert wire[..HEADER_SIZE] == w[..HEADER_SIZE];
    var inHdr := DecodeHeader(wire[..HEADER_SIZE]);
    assert wire[HEADER_SIZE..HEADER_SIZE + inHdr.length] == contents;
    CopyIn(wire[HEADER_SIZE..HEADER_SIZE + inHdr.length], inbox);
    CopyIn(inbox[..inHdr.length], buffer);
    mail := Parse(inHdr, buffer, inHdr.length);
  }

  lemma SliceOfPrefix(s: seq<byte>, n: nat, i: nat, j: nat)
    requires i <= j <= n <= |s|
    ensures s[..n][i..j] == s[i..j]
  {
  }

  /** bcopy to the front of a buffer */
  method CopyIn(src: seq<byte>, dst: array<byte>)
    requires |src| <= dst.Length
    modifies dst
    ensures dst[..|src|] == src
  {
    Bcopy(src, dst, 0);
    assert dst[..|src|] == dst[..][..|src|] == src;
  }

  /** The postal worker's reading of a packet of `length` bytes */
  method Parse(pktHdr: Header, buffer: array<byte>, length: nat) returns (mail: Mail)
    requires length <= buffer.Length && Readable(buffer[..length])
    ensures mail == Unpacked(pktHdr, buffer[..length])
  {
    hide DecodeHeader;
    SliceOfPrefix(buffer[..], length, 0, HEADER_SIZE);
    assert buffer[..HEADER_SIZE] == buffer[..][0..HEADER_SIZE] && buffer[..length] == buffer[..][..length];
    var mailHdr := DecodeHeader(buffer[..HEADER_SIZE]);
    SliceOfPrefix(buffer[..], length, HEADER_SIZE, HEADER_SIZE + mailHdr.length);
    mail := Mail(pktHdr, mailHdr, buffer[HEADER_SIZE..HEADER_SIZE + mailHdr.length]);
    assert mail.data == buffer[..][HEADER_SIZE..HEADER_SIZE + mailHdr.length];
  }
}
