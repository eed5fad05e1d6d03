/** Names the audio modules share with the framework. Device masks are sets of devices. */
module AudioSystem {
  type byte = b: int | 0 <= b < 0x100

  datatype Mode = Normal | Ringtone | InCall | InCommunication

  datatype OutDevice =
    | Earpiece | Speaker | WiredHeadset | WiredHeadphone
    | BtSco | BtScoHeadset | BtScoCarkit
    | BtA2dp | BtA2dpHeadphones | BtA2dpSpeaker
    | AuxDigital | Fm | FmSpeaker

  datatype InDevice = BuiltinMic | WiredHeadsetMic | BtScoMic | VoiceCall | OtherIn

  datatype TtyMode = TtyOff | TtyVco | TtyHco | TtyFull
}
